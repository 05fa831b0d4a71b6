/** The modulation clock: a 4-bit phase counter reloaded from the rate
    table, the carry it produces, the 13-bit modulation counter that the
    carry advances, and the three base addresses recomputed on each carry. */
module ModClock {
  import opened Bits

  /** Period of the modulation counter. */
  const ModCountPeriod := 8192

  /** The phase counter after one sample: count up, and on reaching 16
      reload from the rate table (`reload` is `U71[modRateCount]`). */
  function NextModClock(modClockOut: nat, reload: Byte): (clock: nat)
  {
    var next := modClockOut + 1;
    if next == 16 then reload else next
  }

  /** `modCarry = (modClockOut + 1) >> 4`. */
  function ModCarry(modClockOut: nat): (carry: nat)
  {
    (modClockOut + 1) / 16
  }

  /** The modulation counter after a carry, wrapping past 8191 to 0. */
  function NextModCount(modCount: int): (next: int)
  {
    var next := modCount + 1;
    if next > 8191 then 0 else next
  }

  /** The modulation-driven base addresses. */
  datatype ModBases = ModBases(gainModContBaseAddr: int, gainModBaseAddr: int, delayModBaseAddr: int)

  /** The base addresses the chip computes from the modulation counter on a
      carry. `gainModBaseAddr` is a 16-bit field, so `modCount << 7` is
      truncated before `>> 4`. */
  function BasesOf(modCount: nat): (bases: ModBases)
  {
    var gainModContBaseAddr := (modCount / 64) * 32;
    var gainModBaseAddr := ToUShort(modCount * 128) / 16;
    var delayModCount := modCount / 64;
    var delayModBaseAddr := delayModCount * 32;
    ModBases(gainModContBaseAddr, gainModBaseAddr, delayModBaseAddr)
  }

  /** The ranges the tap derivation relies on. */
  predicate BasesInRange(b: ModBases)
  {
    && 0 <= b.gainModContBaseAddr <= 4064
    && 0 <= b.delayModBaseAddr <= 4064
    && 0 <= b.gainModBaseAddr <= 4088 && b.gainModBaseAddr % 8 == 0
  }

  /** For a phase in 0..15 and a 4-bit reload value the phase stays in
      0..15, and the carry is 1 exactly when the new phase is 15. */
  lemma ClockStep(modClockOut: nat, reload: Byte)
    requires modClockOut <= 15 && reload <= 15
    ensures NextModClock(modClockOut, reload) <= 15
    ensures ModCarry(NextModClock(modClockOut, reload)) <= 1
    ensures ModCarry(NextModClock(modClockOut, reload)) == 1 <==> NextModClock(modClockOut, reload) == 15
  {
  }

  /** The phase after `n` samples with a fixed reload value. */
  function ClockAfter(modClockOut: nat, reload: Byte, n: nat): (clock: nat)
  {
    if n == 0 then modClockOut else NextModClock(ClockAfter(modClockOut, reload, n - 1), reload)
  }

  /** Starting at the sample of a carry (phase 15), the phase is the reload
      value one sample later and counts up by one per sample from there. */
  lemma {:induction false} ClockAfterCarry(reload: Byte, k: nat)
    requires reload <= 15 && 1 <= k <= 16 - reload
    ensures ClockAfter(15, reload, k) == reload + k - 1
  {
    if k > 1 {
      ClockAfterCarry(reload, k - 1);
    }
  }

  /** Carries are `16 - R` samples apart for a reload value `R`: none in
      between, one at the end. */
  lemma CarryPeriod(reload: Byte, k: nat)
    requires reload <= 15 && 1 <= k <= 16 - reload
    ensures ModCarry(ClockAfter(15, reload, k)) == (if k == 16 - reload then 1 else 0)
  {
    ClockAfterCarry(reload, k);
  }

  /** The modulation counter counts modulo 8192 and stays in 0..8191. */
  lemma ModCountWraps(modCount: int)
    requires 0 <= modCount < ModCountPeriod
    ensures NextModCount(modCount) == (modCount + 1) % ModCountPeriod
    ensures 0 <= NextModCount(modCount) < ModCountPeriod
  {
  }

  /** After every carry the base addresses satisfy: the gain-modulation
      control base and the delay-modulation base are both
      `(modCount / 64) * 32`, a multiple of 32 at most 4064; the
      gain-modulation base is `8 * (modCount % 512)`, a multiple of 8 at
      most 4088. */
  lemma BasesOfRanges(modCount: nat)
    requires modCount < ModCountPeriod
    ensures BasesOf(modCount).gainModContBaseAddr == BasesOf(modCount).delayModBaseAddr
    ensures BasesOf(modCount).delayModBaseAddr == (modCount / 64) * 32
    ensures BasesOf(modCount).gainModBaseAddr == 8 * (modCount % 512)
    ensures BasesInRange(BasesOf(modCount))
  {
    var q, r := modCount / 512, modCount % 512;
    assert modCount == 512 * q + r;
    TruncatedShift(q, r);
    assert modCount / 64 <= 127;
  }

  lemma TruncatedShift(q: nat, r: nat)
    requires r < 512
    ensures ((512 * q + r) * 128) % 0x1_0000 / 16 == 8 * r
  {
    assert (512 * q + r) * 128 == 0x1_0000 * q + 128 * r;
  }

  /** Since the gain-modulation base is a multiple of 8, OR-ing in a 3-bit
      control value is an addition, and the result indexes a 4096-entry
      table. */
  lemma GainModAddressIsSum(gainModContOut: nat, b: ModBases)
    requires gainModContOut < 8 && BasesInRange(b)
    ensures Or(gainModContOut, b.gainModBaseAddr) == gainModContOut + b.gainModBaseAddr
    ensures Or(gainModContOut, b.gainModBaseAddr) < 4096
    ensures Or(gainModContOut, b.gainModBaseAddr) % 8 == gainModContOut
    ensures Or(gainModContOut, b.gainModBaseAddr) / 8 == b.gainModBaseAddr / 8
  {
    assert Pow2(3) == 8;
    var m := b.gainModBaseAddr / 8;
    assert b.gainModBaseAddr == m * 8;
    OrDisjoint(gainModContOut, m, 3);
    DivMod(gainModContOut + b.gainModBaseAddr, 8, m, gainModContOut);
  }
}
