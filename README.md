# SG-323 chip emulation in Dafny

This project models the integer "chip emulation" at the heart of the SG-323
reverb plugin (`PluginProcessor.cpp`). The plugin re-creates the
addressing and gain logic of the original hardware:

- a delay memory of 16384 cells, addressed by a row/column folding
  (`calculateAddress`);
- a write counter that counts down modulo 16384 (`countWriteAddress`);
- a modulation clock: a 4-bit phase counter reloaded from table U71, the
  carry it produces, and a 13-bit modulation counter that re-addresses the
  modulation tables;
- 15 feedback taps, 3 left output taps and 4 right output taps. Each tap
  derives a memory cell, a gain ceiling and a sign bit from the tables
  U69, U76, U77, U78 and U79, the row/column counters and the base
  addresses.

The model has two layers.

- **The pure layer** (modules `Bits`, `Address`, `Tables`, `ModClock`, `Taps`,
  `DelayMemory`, `Chip`) states each piece as functions on values.
  - `Chip.Next` is one iteration of the per-sample loop of `processBlock`.
  - `Chip.Run` and `Chip.Outputs` are a whole block.
  - The lemmas prove the properties of the addressing, the clock, the tap
    derivation and the circular memory.
- **The imperative layer** (module `Engine`) is the plugin object as a class.
  - The counters and base addresses are fields.
  - The delay memory is an `array<real>` of 16384 cells.
  - The tap descriptors (`delayTaps`, `gainCeiling`, `signMod`) are one
    array of 24 `Tap` slots.
  - `Processor.Step` is the body of the `for (y …)` loop.
  - `Processor.ProcessBlock` is the loop.
  - `Processor.PrepareToPlay` is the buffer clearing of `prepareToPlay`.

  `Processor.Step` and `Processor.ProcessBlock` are proved against the pure
  layer: they leave the fields equal to `Chip.Next`/`Chip.Run` of the old
  state, each output buffer holds the corresponding channel of
  `Chip.Outputs`, and the tap slots are `Engine.SlotsAfter`/`Engine.BlockSlots`
  of the old ones. `Processor.PrepareToPlay` clears the memory to
  `Chip.Silence`. The methods that make up one iteration (`WriteInput`, the
  tap loops, `AdvanceClock`, `CountDown`, …) each state their own part of
  the effect.

Integer widths are written out explicitly. `PluginProcessor.h`, which
declares the member fields and the tables, is not part of this model, so
the following widths are assumptions:

| field | width |
|---|---|
| `nROW`, `preDelay_low`, `gainModContOut`, `gainOut` | 8-bit unsigned (`Bits.ToByte`) |
| `gainModBaseAddr` | 16-bit unsigned (`Bits.ToUShort`) |
| `rowInput`, `columnInput` | unsigned short, as the source declares |
| the argument and result of `countWriteAddress` | `short` (`Bits.ToShort`) |
| the entries of U69, U71, U76, U77, U78 and U79 | 8-bit unsigned (`seq<Byte>`) |

These choices give the behaviour the hardware intends:

- `nROW` is the low byte of the write counter;
- `gainOut` is twice bits 0-6 of the U78 entry;
- `U78[...] >> 7` is the sign bit, 0 or 1;
- the two-step shifts mask.

Other integer fields are unbounded. The tables are inputs. `Tables.Fits` states the table lengths every index needs and that
the U71 reload value is at most 15.

Sample values are `real`. The tap sums are modelled as the exact real
recurrence the code performs:

- `mFeedbackTaps` and `mOutputTaps` are never reset between samples;
- the left output sum is divided by 4 although it has only 3 taps;
- the right output sum starts from the left output value.

All three are kept as written.

Three details of the clock's timing are easy to misread; the model keeps
them as the code has them:

- **When the carry fires.** The carry `(modClockOut + 1) >> 4`
  (`PluginProcessor.cpp:418`) is taken from the updated phase, so it is 1
  on the sample whose new phase is 15, one sample before the reload from
  U71.
- **How far apart carries are.** With reload value `R`, consecutive carries
  are `16 - R` samples apart (`ModClock.CarryPeriod`); the reload happens
  on the sample after a carry, so the next carry comes `15 - R` samples
  after the reload.
- **What a carry recomputes.** Besides the modulation counter, a carry
  recomputes three base addresses, `gainModContBaseAddr`, `gainModBaseAddr`
  and `delayModBaseAddr` (`PluginProcessor.cpp:433-437`).

## Model

| member | source | states |
|---|---|---|
| Bits.ToByte | JUCE/SG-323_Filter/Source/PluginProcessor.cpp:187-197 | the conversion to `uint8_t` keeps the low 8 bits: it gives a value in 0..255 and leaves values already in that range unchanged |
| Bits.ToUShort | JUCE/SG-323_Filter/Source/PluginProcessor.cpp:195 | the conversion to `unsigned short` gives a value in 0..65535 and leaves values already in that range unchanged |
| Bits.Or | JUCE/SG-323_Filter/Source/PluginProcessor.cpp:193 | C's `|` on non-negative integers: the result is at least each operand and at most their sum; `OrDisjoint` gives it exactly on disjoint bit fields |
| Bits.ToShort | JUCE/SG-323_Filter/Source/PluginProcessor.cpp:201-210 | the conversion to `short` gives a value in -32768..32767 congruent to its argument modulo 65536 |
| Bits.OrDisjoint | JUCE/SG-323_Filter/Source/PluginProcessor.cpp:297-301 | OR-ing a value below `2^k` with a multiple of `2^k` is their sum, so `\|` on disjoint bit fields is `+` |
| Address.CalculateAddress | JUCE/SG-323_Filter/Source/PluginProcessor.cpp:183-199 | for every pair of 16-bit inputs the folded address lies in 0..16383, so every write and tap read indexes inside the buffer |
| Address.RowDelay | JUCE/SG-323_Filter/Source/PluginProcessor.cpp:186-193 | no contract of its own: `RowDelayFolds` proves the shift-and-OR row computation equals the reference fold `RowFold` of the row's low byte |
| Address.DelayCarryOut | JUCE/SG-323_Filter/Source/PluginProcessor.cpp:191 | no contract of its own: `ColumnDelayKeepsLow6` proves the row's high byte is the carry added to the column, so the address column is `(column + row / 256) % 64` |
| Address.ColumnDelay | JUCE/SG-323_Filter/Source/PluginProcessor.cpp:195-197 | the column half of the address is in 0..63 |
| Address.AddressFolding | JUCE/SG-323_Filter/Source/PluginProcessor.cpp:186-198 | `address % 256` is `RowFold(row % 256)`, which depends only on the row's low byte, and `address / 256 == (column + row / 256) % 64` |
| Address.RowFoldBijective | JUCE/SG-323_Filter/Source/PluginProcessor.cpp:186-193 | the row fold (bit 7 stays, bits 0-5 up one place, bit 6 to bit 0) has `RowUnfold` as its two-sided inverse, so it is a bijection on 0..255 |
| Address.AddressIsFoldedCell | JUCE/SG-323_Filter/Source/PluginProcessor.cpp:183-199 | `calculateAddress` equals the reference `FoldedCell` for all 16-bit inputs |
| Address.OriginAddress | JUCE/SG-323_Filter/Source/PluginProcessor.cpp:183-199 | `calculateAddress(0, 0) == 0` |
| Address.RowDelayFolds | JUCE/SG-323_Filter/Source/PluginProcessor.cpp:186-193 | the row half computed by the shifts is the reference row fold of the row's low byte |
| Address.ColumnDelayKeepsLow6 | JUCE/SG-323_Filter/Source/PluginProcessor.cpp:191-197 | the column half is `(column + row / 256) % 64` |
| Address.WriteCell | JUCE/SG-323_Filter/Source/PluginProcessor.cpp:304-306 | the write cell of a counter value is in 0..16383 |
| Address.WriteTapAddress | JUCE/SG-323_Filter/Source/PluginProcessor.cpp:304-306 | the write tap `calculateAddress(nROW, nCOLUMN)`, with `nROW` the counter's low byte and `nCOLUMN` its high part, is the counter's write cell |
| Address.WriteCellInjective | JUCE/SG-323_Filter/Source/PluginProcessor.cpp:304-306 | distinct write-counter values give distinct write cells |
| Address.WriteCounterOf | JUCE/SG-323_Filter/Source/PluginProcessor.cpp:304-306 | every cell is the write cell of the counter value returned, so the write tap reaches every cell |
| Address.CountWriteAddress | JUCE/SG-323_Filter/Source/PluginProcessor.cpp:201-210 | for `0 <= w < 16384` the result is `(w - 1) % 16384`: `w - 1`, or 16383 for 0; for other negative `short` values 16383; for -32768 the wrapped 32767; always in 0..32767 |
| Address.CountN | JUCE/SG-323_Filter/Source/PluginProcessor.cpp:420-422 | repeated countdown from a counter in 0..16383 stays in 0..16383 |
| Address.CountNIsModular | JUCE/SG-323_Filter/Source/PluginProcessor.cpp:201-210 | `n` countdowns move the counter back by `n` modulo 16384 |
| Address.WriteCounterPeriod | JUCE/SG-323_Filter/Source/PluginProcessor.cpp:201-210 | 16384 countdowns return the counter to its start |
| Address.WriteCellsDistinct | JUCE/SG-323_Filter/Source/PluginProcessor.cpp:304-307 | within 16384 consecutive samples no two samples write the same cell |
| Address.WriteCells | JUCE/SG-323_Filter/Source/PluginProcessor.cpp:304-307 | the write cells of 16384 successive samples all index the buffer |
| Address.WriteCellsAreDistinct | JUCE/SG-323_Filter/Source/PluginProcessor.cpp:304-307 | those 16384 write cells are pairwise distinct: every cell is written once per 16384 samples |
| Tables.GainBaseAddr | JUCE/SG-323_Filter/Source/PluginProcessor.cpp:297 | no contract of its own: `GainBaseLayout` gives the closed form `decayTime * 32 + program * 256` for 3-bit decay times |
| Tables.PreDelayHigh | JUCE/SG-323_Filter/Source/PluginProcessor.cpp:298 | no contract of its own: `PreDelayLowIsLow3Bits` proves `preDelay == PreDelayHigh * 8 + PreDelayLow` |
| Tables.PreDelayLow | JUCE/SG-323_Filter/Source/PluginProcessor.cpp:299-300 | no contract of its own: `PreDelayLowIsLow3Bits` proves the two 8-bit shifts keep exactly the low 3 bits of `preDelay` |
| Tables.DelayBaseAddr | JUCE/SG-323_Filter/Source/PluginProcessor.cpp:301 | no contract of its own: `DelayBaseLayout` gives the closed form with the low pre-delay bits at bit 6, the program at bit 9 and the high pre-delay bits at bit 12 |
| Tables.ModRateCount | JUCE/SG-323_Filter/Source/PluginProcessor.cpp:415 | no contract of its own: `ModRateCountLayout` gives `rateLevel + program * 16` for 4-bit rate levels |
| Tables.PreDelayLowIsLow3Bits | JUCE/SG-323_Filter/Source/PluginProcessor.cpp:298-300 | the 8-bit `preDelay << 5 >> 5` keeps the low 3 bits, and `preDelay == preDelay_high * 8 + preDelay_low` |
| Tables.GainBaseLayout | JUCE/SG-323_Filter/Source/PluginProcessor.cpp:297 | for a 3-bit decay time, `gainBaseAddr == decayTime * 32 + program * 256`, a multiple of 32 |
| Tables.DelayBaseLayout | JUCE/SG-323_Filter/Source/PluginProcessor.cpp:298-301 | for a 3-bit program, `delayBaseAddr == (preDelay % 8) * 64 + program * 512 + (preDelay / 8) * 4096` |
| Tables.ModRateCountLayout | JUCE/SG-323_Filter/Source/PluginProcessor.cpp:415 | for a 4-bit rate level, `modRateCount == rateLevel + 16 * program` |
| ModClock.NextModClock | JUCE/SG-323_Filter/Source/PluginProcessor.cpp:412-417 | no contract of its own: `ClockStep`, `ClockAfterCarry` and `CarryPeriod` state the phase range, the trajectory after a reload and the carry period |
| ModClock.ModCarry | JUCE/SG-323_Filter/Source/PluginProcessor.cpp:418 | no contract of its own: `ClockStep` proves the carry is 0 or 1 and is 1 exactly when the updated phase is 15 |
| ModClock.NextModCount | JUCE/SG-323_Filter/Source/PluginProcessor.cpp:427-431 | no contract of its own: `ModCountWraps` proves it is an increment modulo 8192 |
| ModClock.BasesOf | JUCE/SG-323_Filter/Source/PluginProcessor.cpp:433-437 | no contract of its own: `BasesOfRanges` gives the three bases in closed form, with the 16-bit truncation of `gainModBaseAddr`, and their ranges |
| ModClock.ClockStep | JUCE/SG-323_Filter/Source/PluginProcessor.cpp:412-418 | from a phase in 0..15 with a reload value at most 15 the phase stays in 0..15, and the carry is 0 or 1 and is 1 exactly when the new phase is 15 |
| ModClock.ClockAfterCarry | JUCE/SG-323_Filter/Source/PluginProcessor.cpp:412-418 | `k` samples after a carry the phase is `R + k - 1`, up to the next carry |
| ModClock.CarryPeriod | JUCE/SG-323_Filter/Source/PluginProcessor.cpp:412-418 | after a carry, the next carry comes exactly `16 - R` samples later, with none in between |
| ModClock.ModCountWraps | JUCE/SG-323_Filter/Source/PluginProcessor.cpp:425-431 | the modulation counter increments modulo 8192, wrapping from 8191 to 0, and stays in 0..8191 |
| ModClock.BasesOfRanges | JUCE/SG-323_Filter/Source/PluginProcessor.cpp:433-437 | after a carry `gainModContBaseAddr == delayModBaseAddr == (modCount / 64) * 32`, at most 4064, and the 16-bit `gainModBaseAddr == 8 * (modCount % 512)`, a multiple of 8 at most 4088 |
| ModClock.GainModAddressIsSum | JUCE/SG-323_Filter/Source/PluginProcessor.cpp:325-326 | a 3-bit `gainModContOut` OR-ed into the multiple of 8 `gainModBaseAddr` is their sum, below 4096, with low 3 bits `gainModContOut` |
| Taps.StaticGain | JUCE/SG-323_Filter/Source/PluginProcessor.cpp:328 | no contract of its own: `GainDecode` proves the 8-bit `<< 1` is twice bits 0-6 of the entry |
| Taps.SignBit | JUCE/SG-323_Filter/Source/PluginProcessor.cpp:337 | no contract of its own: `GainDecode` proves `>> 7` is 1 exactly for entries from 128 |
| Taps.GainDecode | JUCE/SG-323_Filter/Source/PluginProcessor.cpp:328-337 | the 8-bit `U78[...] << 1` is `2 * (entry % 128)`, an even value in 0..254; the sign `>> 7` is 0 or 1, and 1 exactly for entries from 128 |
| Taps.SelectGain | JUCE/SG-323_Filter/Source/PluginProcessor.cpp:329-336 | the gain ceiling is at most `gainOut`, is one of the two gains, and is below `gainOut` exactly when the modulated gain is strictly smaller and modulation is enabled |
| Taps.SelectGainIsMin | JUCE/SG-323_Filter/Source/PluginProcessor.cpp:329-336 | with modulation enabled the ceiling is the smaller of the two gains, otherwise the static gain |
| Taps.Mask3 | JUCE/SG-323_Filter/Source/PluginProcessor.cpp:322-323 | the 8-bit `<< 5 >> 5` keeps the low 3 bits |
| Taps.GainModAddress | JUCE/SG-323_Filter/Source/PluginProcessor.cpp:320-326 | the U77 index is in range; its low 3 bits are those of the U76 entry, and the rest is the gain-modulation base |
| Taps.TapAddress | JUCE/SG-323_Filter/Source/PluginProcessor.cpp:316-318 | a tap's cell, from 16-bit row and column inputs, is inside the buffer |
| Taps.TapAddressIsFolded | JUCE/SG-323_Filter/Source/PluginProcessor.cpp:316-318 | a tap reads `FoldedCell(rowOffset + nROW, columnOffset + nCOLUMN)` |
| Taps.FeedbackTapAddress | JUCE/SG-323_Filter/Source/PluginProcessor.cpp:316-318 | a feedback tap's cell, with row offset from U79 and column offset from U69, is inside the buffer |
| Taps.OutputTapAddress | JUCE/SG-323_Filter/Source/PluginProcessor.cpp:362-364 | an output tap's cell, with both offsets from U69 at `delayBaseAddr + 45 + 2d` and `+ 46 + 2d`, is inside the buffer |
| Taps.FeedbackTap | JUCE/SG-323_Filter/Source/PluginProcessor.cpp:316-338 | feedback tap `d`: cell in range; ceiling at most the static gain; below it only when it is the U77 value and U76's enable bits are 0; sign 1 exactly when the U78 entry is at least 128 |
| Taps.OutputTap | JUCE/SG-323_Filter/Source/PluginProcessor.cpp:362-369 | output tap `d`: cell in range, ceiling exactly the static gain `2 * (U78[gainBaseAddr + 23 + d] % 128)`, sign 1 exactly when that entry is at least 128 |
| Taps.StaticTapGain | JUCE/SG-323_Filter/Source/PluginProcessor.cpp:366-378 | a static gain byte below 128 gives the non-positive gain `-2 * entry / 256`, one from 128 the non-negative gain `2 * (entry - 128) / 256`, and every gain is strictly between -1 and 1 |
| Taps.TapGain | JUCE/SG-323_Filter/Source/PluginProcessor.cpp:341-348 | no contract of its own: `StaticTapGain` gives its sign polarity (sign bit 0 negates) and magnitude for static gains, the same code as at lines 371-378 |
| Taps.TapSum | JUCE/SG-323_Filter/Source/PluginProcessor.cpp:349 | no contract of its own: `TapSumSilent` proves silent memory adds nothing; each loop method proves its accumulator is `TapSum` of its taps |
| Taps.TapSumSilent | JUCE/SG-323_Filter/Source/PluginProcessor.cpp:349 | taps over a silent memory add nothing |
| DelayMemory.WriteSeqHolds | JUCE/SG-323_Filter/Source/PluginProcessor.cpp:307 | with distinct cells, after a run of writes every sample is in its cell |
| DelayMemory.WriteSeqKeeps | JUCE/SG-323_Filter/Source/PluginProcessor.cpp:307 | after a run of writes every cell not written is unchanged |
| Chip.Column | JUCE/SG-323_Filter/Source/PluginProcessor.cpp:352-409 | channel `ch` of a run of outputs has one sample per output: sample `i` is that channel of output `i` |
| Chip.Silence | JUCE/SG-323_Filter/Source/PluginProcessor.cpp:98-102 | the cleared memory has 16384 cells, all 0 |
| Chip.Initial | JUCE/SG-323_Filter/Source/PluginProcessor.cpp:98-102 | the initial state satisfies the counter invariant |
| Chip.WritePosition | JUCE/SG-323_Filter/Source/PluginProcessor.cpp:304-306 | `mWritePosition` is in range and is the write cell of the write counter |
| Chip.Written | JUCE/SG-323_Filter/Source/PluginProcessor.cpp:306-307 | after the write exactly one cell, the write cell of the counter, holds the input sample; every other cell is unchanged |
| Chip.FeedbackTapsUpTo | JUCE/SG-323_Filter/Source/PluginProcessor.cpp:314-318 | the first `n` feedback taps are `n` taps, every cell in range |
| Chip.OutputTapRange | JUCE/SG-323_Filter/Source/PluginProcessor.cpp:360-364 | output taps `from..from+n-1` are `n` taps, every cell in range |
| Chip.FeedbackTapsUpToAt | JUCE/SG-323_Filter/Source/PluginProcessor.cpp:314-318 | element `i` of the first `n` feedback taps is feedback tap `i` |
| Chip.FeedbackTapsUpToIndex | JUCE/SG-323_Filter/Source/PluginProcessor.cpp:314-318 | element `i` of the first `n` feedback taps is feedback tap `i`, for one index |
| Chip.OutputTapRangeAt | JUCE/SG-323_Filter/Source/PluginProcessor.cpp:360-364 | element `i` of output taps `from..from+n-1` is output tap `from + i` |
| Chip.FeedbackTapsAt | JUCE/SG-323_Filter/Source/PluginProcessor.cpp:314-318 | element `d` of a sample's 15 feedback taps is feedback tap `d` |
| Chip.LeftTapsAt | JUCE/SG-323_Filter/Source/PluginProcessor.cpp:360-364 | the left taps are output taps 0, 1 and 2, in that order |
| Chip.RightTapsAt | JUCE/SG-323_Filter/Source/PluginProcessor.cpp:386-390 | the right taps are output taps 4, 5, 6 and 7, in that order |
| Chip.FeedbackTaps | JUCE/SG-323_Filter/Source/PluginProcessor.cpp:314 | a sample has 15 feedback taps, every cell in range |
| Chip.LeftTaps | JUCE/SG-323_Filter/Source/PluginProcessor.cpp:360 | the left output has only 3 taps, output taps 0..2 |
| Chip.RightTaps | JUCE/SG-323_Filter/Source/PluginProcessor.cpp:386 | the right output has 4 taps, output taps 4..7 |
| Chip.FeedbackSample | JUCE/SG-323_Filter/Source/PluginProcessor.cpp:343-352 | no contract of its own: `Processor.FeedbackPart` proves the imperative feedback sum equals it, and `SilentSample` exhibits the division by 15 of the never-reset accumulator |
| Chip.LeftSample | JUCE/SG-323_Filter/Source/PluginProcessor.cpp:374-383 | no contract of its own: `Processor.LeftPart` proves the left sum equals it, and `SilentSample` exhibits the division by 4 over 3 taps |
| Chip.RightSample | JUCE/SG-323_Filter/Source/PluginProcessor.cpp:400-409 | no contract of its own: `Processor.RightPart` proves the right sum equals it, and `SilentSample` exhibits that it continues from the left value (a total division by 16) |
| Chip.Output | JUCE/SG-323_Filter/Source/PluginProcessor.cpp:352-409 | no contract of its own: `OutputsAt`, `Processor.Step` and `SilentSample` state what it produces |
| Chip.NextClock | JUCE/SG-323_Filter/Source/PluginProcessor.cpp:412-418 | the new phase is at most 15 and the carry of it is 1 exactly when it is 15 |
| Chip.NextCount | JUCE/SG-323_Filter/Source/PluginProcessor.cpp:424-431 | the new modulation counter is in 0..8191 |
| Chip.Tick | JUCE/SG-323_Filter/Source/PluginProcessor.cpp:411-438 | the counters after an iteration keep the counter invariant (row/column are the write counter's low byte and high part, 4-bit phase, 13-bit counter, bases of the counter) |
| Chip.Next | JUCE/SG-323_Filter/Source/PluginProcessor.cpp:294-439 | one iteration keeps the state invariant |
| Chip.Run | JUCE/SG-323_Filter/Source/PluginProcessor.cpp:294-439 | a block keeps the state invariant |
| Chip.Outputs | JUCE/SG-323_Filter/Source/PluginProcessor.cpp:294-439 | a block produces one output per input sample |
| Chip.OutputsAt | JUCE/SG-323_Filter/Source/PluginProcessor.cpp:294-409 | sample `i` of a block is the output of the state after the first `i` samples, on input sample `i` |
| Chip.WriteCounterStep | JUCE/SG-323_Filter/Source/PluginProcessor.cpp:420-422 | each sample the write counter decreases by 1 modulo 16384; `nCOLUMN` is its high part, at most 63; `nROW` its low byte |
| Chip.ClockAndCounterStep | JUCE/SG-323_Filter/Source/PluginProcessor.cpp:411-438 | the phase stays in 0..15; the modulation counter advances by 1 modulo 8192 exactly when the new phase is 15; without a carry the bases do not change; after it they are `(modCount / 64) * 32` and a multiple of 8 |
| Chip.Evolve | JUCE/SG-323_Filter/Source/PluginProcessor.cpp:304-307 | the write path alone (counters and memory) keeps the invariant |
| Chip.RunIsEvolve | JUCE/SG-323_Filter/Source/PluginProcessor.cpp:294-439 | the counters and the memory after a block do not depend on the running sums |
| Chip.EvolveWriteCounter | JUCE/SG-323_Filter/Source/PluginProcessor.cpp:420-422 | along the write path the write counter has counted down once per sample |
| Chip.RunWriteCounter | JUCE/SG-323_Filter/Source/PluginProcessor.cpp:420-422 | after `n` samples the write counter has counted down `n` times |
| Chip.EvolveMemory | JUCE/SG-323_Filter/Source/PluginProcessor.cpp:304-307 | the memory after at most 16384 samples is the block written, in order, to the successive write cells |
| Chip.RunCircular | JUCE/SG-323_Filter/Source/PluginProcessor.cpp:304-307 | after at most 16384 samples input sample `k` sits in the write cell of the `k`-th counter value, and every cell the block did not write is unchanged |
| Chip.SilentSample | JUCE/SG-323_Filter/Source/PluginProcessor.cpp:343-409 | the running sums are never reset: over a silent memory and input the feedback output is the old feedback sum / 15, the left the old output sum / 4, and the right that / 16 |
| Engine.FillSlots | JUCE/SG-323_Filter/Source/PluginProcessor.cpp:314-318 | the filled slots hold the taps in order; every other slot is unchanged |
| Engine.SampleSlots | JUCE/SG-323_Filter/Source/PluginProcessor.cpp:318-390 | after a sample (the slot ensures of `Processor.Step`), slot `1 + d` holds feedback tap `d`, slot `16 + d` output tap `d` for `d` in 0..2 and 4..7, and slots 0 and 19 are unchanged |
| Engine.SlotsAfter | JUCE/SG-323_Filter/Source/PluginProcessor.cpp:314-390 | the slots after one sample have the 24 slots of the descriptor arrays |
| Engine.SlotsAfterAt | JUCE/SG-323_Filter/Source/PluginProcessor.cpp:314-390 | slot `i` after a sample is that sample's feedback tap `i - 1` (1-15), left tap `i - 16` (16-18) or right tap `i - 20` (20-23), and the old slot at 0 and 19 |
| Engine.SlotsOverwrite | JUCE/SG-323_Filter/Source/PluginProcessor.cpp:314-390 | a later sample overwrites every slot an earlier one wrote: two samples leave the slots as the second alone does |
| Engine.BlockSlots | JUCE/SG-323_Filter/Source/PluginProcessor.cpp:294-439 | the slots after a block of samples, each writing over the previous ones, keep the 24 slots |
| Engine.BlockSlotsLast | JUCE/SG-323_Filter/Source/PluginProcessor.cpp:294-439 | after a non-empty block the slots hold the last sample's descriptors over the slots as they were before the block |
| Engine.Processor.constructor | JUCE/SG-323_Filter/Source/PluginProcessor.cpp:94-102 | a fresh processor has a cleared 16384-cell delay buffer and its counters at zero: the model's initial state |
| Engine.Processor.PrepareToPlay | JUCE/SG-323_Filter/Source/PluginProcessor.cpp:94-102 | the delay buffer is cleared in place; counters and running sums are unchanged |
| Engine.Processor.WriteInput | JUCE/SG-323_Filter/Source/PluginProcessor.cpp:304-307 | the input sample is written to `calculateAddress(nROW, nCOLUMN)`: the memory becomes `Written` |
| Engine.Processor.FeedbackLoop | JUCE/SG-323_Filter/Source/PluginProcessor.cpp:309-350 | the 15 feedback taps go to slots 1..15 and `mFeedbackTaps` gains their weighted reads of the memory after the write |
| Engine.Processor.FeedbackTapPass | JUCE/SG-323_Filter/Source/PluginProcessor.cpp:316-349 | pass `d` derives the sample's feedback tap `d`, stores it in slot `1 + d` and adds its weighted read, so the first `d + 1` taps are done |
| Engine.Processor.LeftLoop | JUCE/SG-323_Filter/Source/PluginProcessor.cpp:359-381 | output taps 0..2 go to slots 16..18 and `mOutputTaps` gains their weighted reads |
| Engine.Processor.RightLoop | JUCE/SG-323_Filter/Source/PluginProcessor.cpp:385-407 | output taps 4..7 go to slots 20..23 and `mOutputTaps` gains their weighted reads |
| Engine.Processor.OutputTapPass | JUCE/SG-323_Filter/Source/PluginProcessor.cpp:362-380 | pass `d` stores output tap `d` in slot `16 + d` and adds its weighted read |
| Engine.Processor.AdvanceCounters | JUCE/SG-323_Filter/Source/PluginProcessor.cpp:411-438 | the counter fields become `Tick` of the old counters; the memory is untouched |
| Engine.Processor.AdvanceClock | JUCE/SG-323_Filter/Source/PluginProcessor.cpp:412-418 | the phase becomes `NextClock` and the carry is that of the new phase |
| Engine.Processor.CountDown | JUCE/SG-323_Filter/Source/PluginProcessor.cpp:420-422 | the write counter is counted down; `nROW` and `nCOLUMN` are the new counter's low byte and high part |
| Engine.Processor.AdvanceModulation | JUCE/SG-323_Filter/Source/PluginProcessor.cpp:424-438 | the modulation counter becomes `NextCount`; the bases are recomputed from it on a carry and unchanged otherwise |
| Engine.Processor.FeedbackPart | JUCE/SG-323_Filter/Source/PluginProcessor.cpp:309-352 | the feedback sample written out is the model's `FeedbackSample` |
| Engine.Processor.LeftPart | JUCE/SG-323_Filter/Source/PluginProcessor.cpp:354-383 | the left sample written out is the model's `LeftSample` |
| Engine.Processor.RightPart | JUCE/SG-323_Filter/Source/PluginProcessor.cpp:385-409 | the right sample written out is the model's `RightSample`, accumulated on top of the left one |
| Engine.Processor.WriteAndRead | JUCE/SG-323_Filter/Source/PluginProcessor.cpp:304-409 | the input is written, the three samples are `Output` of the old state, the running sums are those of `Next`, the counters are untouched and the tap slots hold this sample's descriptors |
| Engine.Processor.Step | JUCE/SG-323_Filter/Source/PluginProcessor.cpp:294-439 | one iteration: the fields become `Next` of the old state, the three samples are `Output` of it, and the tap slots hold this sample's descriptors |
| Engine.Processor.Emit | JUCE/SG-323_Filter/Source/PluginProcessor.cpp:352-409 | the three samples are stored at index `y` of the feedback, left and right buffers |
| Engine.Processor.Sample | JUCE/SG-323_Filter/Source/PluginProcessor.cpp:294-439 | one iteration, with its samples stored at `y`; the new state is `Next`, the samples are `Output` and the tap slots are `SlotsAfter` the old ones |
| Engine.Processor.BlockSample | JUCE/SG-323_Filter/Source/PluginProcessor.cpp:294-439 | after iteration `y` the state, the stored samples and the tap slots are those of the first `y + 1` input samples (`Run`, `Outputs`, `BlockSlots`) |
| Engine.Processor.ProcessBlock | JUCE/SG-323_Filter/Source/PluginProcessor.cpp:294-439 | after the block the fields are `Run` of the old state on the input buffer, each output buffer is the matching channel of `Outputs`, and the tap slots are `BlockSlots` of the old ones |

Reference definitions and predicates that the rows above state properties
of, and that have no row of their own: `Address.RowFold`, `Address.RowUnfold`,
`Address.FoldedCell`, `Bits.Pow2`, `Tables.BaseAddresses`, `Tables.Fits`,
`ModClock.BasesInRange`, `ModClock.ClockAfter`, `Taps.GainMagnitude`,
`Taps.Min`, `Taps.AddressesInRange`, `DelayMemory.InRange`,
`DelayMemory.Distinct`, `DelayMemory.WriteSeq`, `Chip.ChannelOf`,
`Chip.CountersInv`, `Chip.Inv`, `Engine.Fill`, `Engine.Processor.Ctr`,
`Engine.Processor.State`, `Engine.Processor.Valid` and
`Engine.Processor.Stored`.

Proof helpers that only split a value into parts, unfold or reassemble a
definition, and have no row: `Address.FoldInputParts`,
`Address.UnfoldInputParts`, `Address.FoldRoundTrip`, `Address.UnfoldRoundTrip`,
`Address.FoldParts`, `Address.UnfoldParts`, `Address.RowDelayFoldsParts`,
`Address.RowDelayParts`, `Address.OrParts`, `Address.OrLowBit`,
`Address.OrHighBit`, `Address.DivModSplit`, `Address.RowParts`,
`Address.RowBits`, `Address.ColumnBits`, `Address.UnfoldedCell`,
`Address.WriteCellOf`, `Address.DecrementModular`, `Address.ModDecrement`,
`Address.WriteCellsAt`, `Address.ModDistinct`, `Bits.DivMod`, `Bits.MulMono`,
`Bits.OrStep`, `Bits.OrCommutes`, `Tables.Low3Bits`, `Tables.Pow2Of9And12`,
`ModClock.TruncatedShift`, `Taps.TapSumStep`, `Chip.FeedbackTapAt`,
`Chip.NextOfParts`, `Chip.NextWritePath`, `Chip.RunStep`, `Chip.ColumnAppend`,
`Chip.DropLast`, `Chip.PrefixStep`, `Chip.PrefixOfPrefix`,
`Chip.CircularHolds`, `Chip.CircularKeeps`, `Chip.OutputOfSilentTaps`,
`Chip.SilentTapSums`, `Engine.FillStep`, `Engine.FillNothing`,
`Engine.TakeStep`, `Engine.TakeAll` and `Engine.Processor.StoredAll`.

## Left out

- The JUCE host shell is not modelled: bus layouts, programs, the editor and state save/restore. This is plugin boilerplate.
- The filter chain is not modelled: `updateFilter`, the IIR designs, the anti-alias stages and the `gainModule` stages. It is floating-point DSP inside a library that is not shown.
- Floating-point rounding of the tap sums and divisions is not modelled. The sums are an exact `real` recurrence.
- `roundBits` is not modelled: it is float quantisation, and nothing calls it.
- Summing the input channels with `mInputGain`, subtracting the feedback buffer, resizing and copying buffers, and the `mSampleRateCount` priming flag are not modelled. They are buffer plumbing on float samples. The model takes the per-sample loop's input buffer as it is.
- The table contents (U69, U71, U76, U77, U78, U79) and the field declarations are in `PluginProcessor.h`, which is not part of this model. The tables are parameters: sequences of unsigned 8-bit entries (0..255, `seq<Byte>`) restricted by `Tables.Fits`. The decoding of U78 depends on that width: with a signed `char` table, `>> 7` would give -1 for entries from 0x80 and the sign test would differ.
- The integer widths of `nROW`, `preDelay_low`, `gainModContOut`, `gainOut` and `gainModBaseAddr`, and the unsigned 8-bit table entries, are assumptions, listed above.
- `modRateCount` is not a field of the model. The code recomputes it from `rateLevel` and `program` on each reload (line 415); the model computes it once per sample in `Tables.BaseAddresses` and reads it only on a reload. The two agree because the parameters are fixed for the block (next line). No lemma depends on the stored value.
- Engine.Processor.ProcessBlock: the parameters `program`, `decayTime`, `preDelay` and `rateLevel` are one `Params` value for the whole block. The code reads these fields again on every sample (lines 297-301 and 415), so a change the host makes during a block takes effect mid-block there but not in the model. `Processor.Step` and `Processor.Sample` take the same snapshot.
- `sampleRate` and `samplesPerBlock` of `prepareToPlay` play no part in the buffer sizing and are not parameters.
- Engine.Processor.constructor: it stands for the object's construction followed by the first `prepareToPlay`. The header's zero-initialisation of the counters is assumed.
- Chip.RunCircular: it is stated for blocks of at most 16384 samples. Longer blocks wrap around and overwrite cells.
