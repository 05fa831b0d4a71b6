/** Tap descriptors: for each delay-memory read of a sample, the cell it
    reads, the gain magnitude (gain ceiling) and the sign bit, derived
    from the tables, the row/column counters and the base addresses. */
module Taps {
  import opened Bits
  import opened Address
  import opened Tables
  import opened ModClock

  /** One tap: `delayTaps[i]`, `gainCeiling[i]` and `signMod[i]`. */
  datatype Tap = Tap(address: int, gainCeiling: int, sign: int)

  /** Number of feedback taps, and of left and right output taps. */
  const FeedbackTapCount := 15
  const LeftTapCount := 3
  const RightTapCount := 4

  /** Reference decoding of a static gain byte: magnitude is twice bits
      0-6. */
  function GainMagnitude(entry: Byte): (magnitude: int)
  {
    2 * (entry % 128)
  }

  /** `gainOut = U78[...] << 1` on an 8-bit field. */
  function StaticGain(entry: Byte): (gainOut: Byte)
  {
    ToByte(entry as int * 2)
  }

  /** `nGSN = U78[...] >> 7`. */
  function SignBit(entry: Byte): (sign: int)
  {
    entry / 128
  }

  /** The shift idiom decodes the byte as the reference says: magnitude is
      twice bits 0-6, the sign is bit 7. */
  lemma GainDecode(entry: Byte)
    ensures StaticGain(entry) == GainMagnitude(entry)
    ensures 0 <= StaticGain(entry) <= 254 && StaticGain(entry) % 2 == 0
    ensures SignBit(entry) == 0 || SignBit(entry) == 1
    ensures SignBit(entry) == 1 <==> entry >= 128
  {
    var h, l := entry / 128, entry % 128;
    assert entry * 2 == 256 * h + 2 * l;
  }

  /** The feedback tie-break: the modulated gain is used only when
      modulation is enabled (`gainModEnable == 0`) and it is strictly below
      the static gain; otherwise the static gain. */
  function SelectGain(gainModOut: Byte, gainOut: Byte, gainModEnable: int): (ceiling: Byte)
    ensures ceiling <= gainOut
    ensures ceiling == gainOut || ceiling == gainModOut
    ensures ceiling < gainOut <==> gainModOut < gainOut && gainModEnable == 0
  {
    if gainModOut < gainOut && gainModEnable == 0 then gainModOut else gainOut
  }

  /** Equivalently: with modulation enabled the ceiling is the smaller of
      the two gains, otherwise the static gain. */
  lemma SelectGainIsMin(gainModOut: Byte, gainOut: Byte, gainModEnable: int)
    ensures SelectGain(gainModOut, gainOut, gainModEnable)
         == if gainModEnable == 0 then Min(gainModOut, gainOut) else gainOut
  {
  }

  function Min(a: int, b: int): (m: int)
  {
    if a <= b then a else b
  }

  /** `x << 5 >> 5` on an 8-bit field keeps the low 3 bits. */
  lemma Mask3(e: Byte)
    ensures ToByte(e as int * 32) / 32 == e % 8
  {
    assert e == 8 * (e / 8) + e % 8;
    Low3Bits(e / 8, e % 8);
  }

  /** The index into U77 of feedback tap `d`: the low 3 bits of its U76
      entry OR-ed into the gain-modulation base. */
  function GainModAddress(t: Tables, b: ModBases, d: nat): (i: nat)
    requires |t.u76| >= 4087 && |t.u77| >= 4096
    requires BasesInRange(b) && d < FeedbackTapCount
    ensures i < |t.u77|
    ensures i % 8 == t.u76[b.gainModContBaseAddr + 8 + d] % 8
    ensures i / 8 == b.gainModBaseAddr / 8
  {
    var gainModContOut := ToByte(t.u76[b.gainModContBaseAddr + 8 + d] as int * 32) / 32;
    Mask3(t.u76[b.gainModContBaseAddr + 8 + d]);
    GainModAddressIsSum(gainModContOut, b);
    Or(gainModContOut, b.gainModBaseAddr)
  }

  /** The cell a tap reads: `rowInput = rowOffset + nROW` and
      `columnInput = columnOffset + nCOLUMN`, both as 16-bit values, through
      `calculateAddress`. */
  function TapAddress(rowOffset: Byte, columnOffset: Byte, nRow: nat, nColumn: nat): (cell: int)
    ensures 0 <= cell < MemorySize
  {
    var rowInput := ToUShort(rowOffset + nRow);
    var columnInput := ToUShort(columnOffset + nColumn);
    CalculateAddress(rowInput, columnInput)
  }

  /** A tap reads the cell at its row and column offsets from the current
      row/column counters, folded as `FoldedCell` says: the row's low byte
      permuted, the row's overflow carried into the column, modulo 64. */
  lemma TapAddressIsFolded(rowOffset: Byte, columnOffset: Byte, nRow: nat, nColumn: nat)
    requires nRow < 256 && nColumn < 64
    ensures TapAddress(rowOffset, columnOffset, nRow, nColumn)
         == FoldedCell(rowOffset + nRow, columnOffset + nColumn)
  {
    AddressIsFoldedCell(rowOffset + nRow, columnOffset + nColumn);
  }

  /** The cell feedback tap `d` reads: row offset `U79[delayModBaseAddr + 7 + d]`,
      column offset `U69[delayBaseAddr + 16 + 2d]`. */
  function FeedbackTapAddress(t: Tables, base: BaseAddrs, nRow: nat, nColumn: nat, b: ModBases, d: nat): (cell: int)
    requires Fits(t, base) && BasesInRange(b) && d < FeedbackTapCount
    ensures 0 <= cell < MemorySize
  {
    TapAddress(t.u79[b.delayModBaseAddr + 7 + d], t.u69[base.delayBaseAddr + 16 + d * 2], nRow, nColumn)
  }

  /** The cell output tap `d` reads: row offset `U69[delayBaseAddr + 45 + 2d]`,
      column offset `U69[delayBaseAddr + 46 + 2d]`. */
  function OutputTapAddress(t: Tables, base: BaseAddrs, nRow: nat, nColumn: nat, d: nat): (cell: int)
    requires Fits(t, base) && d < 8
    ensures 0 <= cell < MemorySize
  {
    TapAddress(t.u69[base.delayBaseAddr + 45 + d * 2], t.u69[base.delayBaseAddr + 46 + d * 2], nRow, nColumn)
  }

  /** Feedback tap `d` (slot `1 + d`): its row comes from U79 at the
      delay-modulation base, its column from U69 at the delay base, its
      gain from the tie-break between U77 and U78, its sign from U78. */
  function FeedbackTap(t: Tables, base: BaseAddrs, nRow: nat, nColumn: nat, b: ModBases, d: nat): (tap: Tap)
    requires Fits(t, base) && BasesInRange(b) && d < FeedbackTapCount
    ensures 0 <= tap.address < MemorySize
    ensures 0 <= tap.gainCeiling <= GainMagnitude(t.u78[base.gainBaseAddr + 8 + d])
    ensures tap.gainCeiling < GainMagnitude(t.u78[base.gainBaseAddr + 8 + d]) ==>
              tap.gainCeiling == t.u77[GainModAddress(t, b, d)]
              && t.u76[b.gainModContBaseAddr + 8 + d] < 8
    ensures tap.sign == 1 <==> t.u78[base.gainBaseAddr + 8 + d] >= 128
    ensures tap.sign == 0 || tap.sign == 1
  {
    var nGainModEnable := t.u76[b.gainModContBaseAddr + 8 + d] / 8;
    var gainModOut := t.u77[GainModAddress(t, b, d)];
    var gainOut := StaticGain(t.u78[base.gainBaseAddr + 8 + d]);
    GainDecode(t.u78[base.gainBaseAddr + 8 + d]);
    Tap(FeedbackTapAddress(t, base, nRow, nColumn, b, d),
        SelectGain(gainModOut, gainOut, nGainModEnable),
        SignBit(t.u78[base.gainBaseAddr + 8 + d]))
  }

  /** Output tap `d` (slot `16 + d`): row and column from U69 at the delay
      base plus 45 and 46, the static gain and sign from U78 at the gain
      base plus 23. */
  function OutputTap(t: Tables, base: BaseAddrs, nRow: nat, nColumn: nat, d: nat): (tap: Tap)
    requires Fits(t, base) && d < 8
    ensures 0 <= tap.address < MemorySize
    ensures tap.gainCeiling == GainMagnitude(t.u78[base.gainBaseAddr + 23 + d])
    ensures tap.sign == 1 <==> t.u78[base.gainBaseAddr + 23 + d] >= 128
    ensures tap.sign == 0 || tap.sign == 1
  {
    GainDecode(t.u78[base.gainBaseAddr + 23 + d]);
    Tap(OutputTapAddress(t, base, nRow, nColumn, d),
        StaticGain(t.u78[base.gainBaseAddr + 23 + d]),
        SignBit(t.u78[base.gainBaseAddr + 23 + d]))
  }

  /** The signed gain of a tap: `gainCeiling / 256`, negated when the sign
      bit is 0. */
  function TapGain(tap: Tap): (gain: real)
  {
    if tap.sign == 0 then (tap.gainCeiling as real / 256.0) * -1.0
    else tap.gainCeiling as real / 256.0
  }

  /** A decoded static gain byte: bytes 0x00-0x7F give a non-positive gain
      of magnitude `2 * byte / 256`, bytes 0x80-0xFF a non-negative gain of
      magnitude `2 * (byte - 128) / 256`; never 1 or more in magnitude. */
  lemma StaticTapGain(entry: Byte, address: int)
    ensures var g := TapGain(Tap(address, StaticGain(entry), SignBit(entry)));
      && (entry < 128 ==> g == -(2 * entry) as real / 256.0)
      && (entry >= 128 ==> g == (2 * (entry - 128)) as real / 256.0)
      && -1.0 < g < 1.0
  {
    GainDecode(entry);
  }

  predicate AddressesInRange(taps: seq<Tap>)
  {
    forall i :: 0 <= i < |taps| ==> 0 <= taps[i].address < MemorySize
  }

  /** The running sum `acc += memory[address] * gain` over the taps, in
      order. */
  function TapSum(memory: seq<real>, taps: seq<Tap>): (sum: real)
    requires |memory| == MemorySize && AddressesInRange(taps)
  {
    if taps == [] then 0.0
    else
      var last := taps[|taps| - 1];
      TapSum(memory, taps[..|taps| - 1]) + memory[last.address] * TapGain(last)
  }

  /** One more tap adds its weighted read to the running sum. */
  lemma TapSumStep(acc0: real, acc: real, memory: seq<real>, taps: seq<Tap>, tap: Tap, read: real, gain: real)
    requires |memory| == MemorySize && AddressesInRange(taps) && 0 <= tap.address < MemorySize
    requires acc == acc0 + TapSum(memory, taps)
    requires read == memory[tap.address] && gain == TapGain(tap)
    ensures AddressesInRange(taps + [tap])
    ensures acc + read * gain == acc0 + TapSum(memory, taps + [tap])
  {
    var all := taps + [tap];
    assert all[..|taps|] == taps;
    assert all[|taps|] == tap;
    assert TapSum(memory, all) == TapSum(memory, taps) + read * gain;
  }

  /** Taps over a silent memory contribute nothing. */
  lemma {:induction false} TapSumSilent(memory: seq<real>, taps: seq<Tap>)
    requires |memory| == MemorySize && AddressesInRange(taps)
    requires forall i :: 0 <= i < |memory| ==> memory[i] == 0.0
    ensures TapSum(memory, taps) == 0.0
  {
    if taps != [] {
      TapSumSilent(memory, taps[..|taps| - 1]);
    }
  }
}
