/** The chip's lookup tables and the four user parameters, and the base
    addresses derived from the parameters alone. */
module Tables {
  import opened Bits

  /** The six constant tables. Their contents are fixed emulation data of
      the original hardware; here they are inputs, each entry a byte. */
  datatype Tables = Tables(
    u69: seq<Byte>,  // delay offsets (feedback columns, output rows and columns)
    u71: seq<Byte>,  // modulation-rate reload values
    u76: seq<Byte>,  // gain-modulation control: enable bit 3, low 3 bits
    u77: seq<Byte>,  // modulated gains
    u78: seq<Byte>,  // static gains: sign bit 7, magnitude bits 0-6
    u79: seq<Byte>)  // modulated feedback row offsets

  /** The user parameters, read by the per-sample loop. */
  datatype Params = Params(program: nat, decayTime: nat, preDelay: nat, rateLevel: nat)

  /** `gainBaseAddr = (decayTime << 5) | (program << 8)`. */
  function GainBaseAddr(p: Params): (addr: nat)
  {
    Or(p.decayTime * 32, p.program * 256)
  }

  /** `preDelay >> 3`. */
  function PreDelayHigh(p: Params): (high: nat)
  {
    p.preDelay / 8
  }

  /** `preDelay_low = preDelay << 5; preDelay_low >>= 5` on an 8-bit field. */
  function PreDelayLow(p: Params): (low: Byte)
  {
    ToByte(p.preDelay * 32) / 32
  }

  /** `delayBaseAddr = (preDelay_low << 6) | (program << 9) | (preDelay_high << 12)`. */
  function DelayBaseAddr(p: Params): (addr: nat)
  {
    Or(Or(PreDelayLow(p) * 64, p.program * 512), PreDelayHigh(p) * 4096)
  }

  /** `modRateCount = rateLevel | (program << 4)`, the index into U71. */
  function ModRateCount(p: Params): (index: nat)
  {
    Or(p.rateLevel, p.program * 16)
  }

  /** The three table base addresses the per-sample loop derives from the
      parameters. */
  datatype BaseAddrs = BaseAddrs(gainBaseAddr: nat, delayBaseAddr: nat, modRateCount: nat)

  function BaseAddresses(p: Params): (base: BaseAddrs)
  {
    BaseAddrs(GainBaseAddr(p), DelayBaseAddr(p), ModRateCount(p))
  }

  /** Every index the per-sample loop forms lies inside its table, and the
      rate table's reload value is a 4-bit phase. The bounds on U79, U76 and
      U77 cover every value the modulation counter can reach. */
  predicate Fits(t: Tables, base: BaseAddrs)
  {
    && |t.u79| >= 4086
    && |t.u76| >= 4087
    && |t.u77| >= 4096
    && base.gainBaseAddr + 30 < |t.u78|
    && base.delayBaseAddr + 60 < |t.u69|
    && base.modRateCount < |t.u71|
    && t.u71[base.modRateCount] <= 15
  }

  /** The two-step shift keeps exactly the low 3 bits of `preDelay`. */
  lemma PreDelayLowIsLow3Bits(p: Params)
    ensures PreDelayLow(p) == p.preDelay % 8
    ensures p.preDelay == PreDelayHigh(p) * 8 + PreDelayLow(p)
  {
    var q, r := p.preDelay / 8, p.preDelay % 8;
    assert p.preDelay == 8 * q + r;
    Low3Bits(q, r);
  }

  lemma Low3Bits(q: nat, r: nat)
    requires r < 8
    ensures ((8 * q + r) * 32) % 256 / 32 == r
  {
    assert (8 * q + r) * 32 == 256 * q + 32 * r;
  }

  /** With a 3-bit decay time the fields of the gain base do not overlap:
      decay time in bits 5-7, program from bit 8. */
  lemma GainBaseLayout(p: Params)
    requires p.decayTime < 8
    ensures GainBaseAddr(p) == p.decayTime * 32 + p.program * 256
    ensures GainBaseAddr(p) % 32 == 0
  {
    assert Pow2(8) == 256;
    OrDisjoint(p.decayTime * 32, p.program, 8);
    var addr := p.decayTime * 32 + p.program * 256;
    assert addr == 32 * (p.decayTime + 8 * p.program);
    DivMod(addr, 32, p.decayTime + 8 * p.program, 0);
  }

  /** With a 3-bit program the fields of the delay base do not overlap:
      low pre-delay bits in 6-8, program in 9-11, high pre-delay bits from 12. */
  lemma DelayBaseLayout(p: Params)
    requires p.program < 8
    ensures DelayBaseAddr(p) == (p.preDelay % 8) * 64 + p.program * 512 + (p.preDelay / 8) * 4096
  {
    var low, high := PreDelayLow(p), PreDelayHigh(p);
    PreDelayLowIsLow3Bits(p);
    Pow2Of9And12();
    OrDisjoint(low * 64, p.program, 9);
    var lowBits := low * 64 + p.program * 512;
    assert Or(low * 64, p.program * 512) == lowBits;
    OrDisjoint(lowBits, high, 12);
    assert DelayBaseAddr(p) == lowBits + high * 4096;
  }

  lemma Pow2Of9And12()
    ensures Pow2(9) == 512 && Pow2(12) == 4096
  {
    assert Pow2(8) == 256;
  }

  /** With a 4-bit rate level the rate index is `rateLevel + 16 * program`. */
  lemma ModRateCountLayout(p: Params)
    requires p.rateLevel < 16
    ensures ModRateCount(p) == p.rateLevel + p.program * 16
  {
    assert Pow2(4) == 16;
    OrDisjoint(p.rateLevel, p.program, 4);
  }
}
