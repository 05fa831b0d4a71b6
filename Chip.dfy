/** The chip's state and what one sample of the per-sample loop does to
    it, as pure functions: the write of the input sample, the feedback and
    output taps that read the memory after that write, the modulation
    clock, and the write-counter countdown. */
module Chip {
  import opened Bits
  import opened Address
  import opened Tables
  import opened ModClock
  import opened Taps
  import opened DelayMemory

  /** The counters of the per-sample loop: the row/column counters, the
      write counter, the phase counter, the modulation counter and the
      base addresses derived from it. */
  datatype Counters = Counters(
    nRow: int,
    nColumn: int,
    writeAddress: int,
    modClockOut: int,
    modCount: int,
    bases: ModBases)

  /** The persistent state of the per-sample loop. `feedbackTaps` and
      `outputTaps` are the running tap sums (`mFeedbackTaps`,
      `mOutputTaps`), which are never reset between samples. */
  datatype ChipState = ChipState(
    ctr: Counters,
    feedbackTaps: real,
    outputTaps: real,
    memory: seq<real>)

  /** What one sample produces: the feedback-buffer sample and the left and
      right output samples. */
  datatype SampleOut = SampleOut(feedback: real, left: real, right: real)

  /** The three output buffers of a block: the feedback buffer and the
      left and right channels. */
  datatype Channel = FeedbackChannel | LeftChannel | RightChannel

  function ChannelOf(o: SampleOut, ch: Channel): (sample: real)
  {
    match ch
    case FeedbackChannel => o.feedback
    case LeftChannel => o.left
    case RightChannel => o.right
  }

  /** One channel of a run of outputs, sample by sample. */
  function Column(outs: seq<SampleOut>, ch: Channel): (r: seq<real>)
    ensures |r| == |outs|
    ensures forall i :: 0 <= i < |outs| ==> r[i] == ChannelOf(outs[i], ch)
  {
    if outs == [] then [] else Column(outs[..|outs| - 1], ch) + [ChannelOf(outs[|outs| - 1], ch)]
  }

  /** One more output extends each channel by one sample. */
  lemma ColumnAppend(outs: seq<SampleOut>, o: SampleOut, ch: Channel)
    ensures Column(outs + [o], ch) == Column(outs, ch) + [ChannelOf(o, ch)]
  {
    assert (outs + [o])[..|outs|] == outs;
  }

  /** The counter invariant: the row/column counters are the low byte and
      the high part of the write counter, the phase is 4 bits, the
      modulation counter 13 bits, and the base addresses are those of the
      modulation counter. */
  predicate CountersInv(c: Counters)
  {
    && 0 <= c.writeAddress < MemorySize
    && c.nRow == c.writeAddress % 256
    && c.nColumn == c.writeAddress / 256
    && 0 <= c.modClockOut <= 15
    && 0 <= c.modCount < ModCountPeriod
    && c.bases == BasesOf(c.modCount)
  }

  predicate Inv(s: ChipState)
  {
    |s.memory| == MemorySize && CountersInv(s.ctr)
  }

  function Silence(): (m: seq<real>)
    ensures |m| == MemorySize && forall i :: 0 <= i < MemorySize ==> m[i] == 0.0
  {
    seq(MemorySize, _ => 0.0)
  }

  /** The state after initialisation: counters at zero, memory cleared. */
  function Initial(): (s: ChipState)
    ensures Inv(s)
  {
    ChipState(Counters(0, 0, 0, 0, 0, BasesOf(0)), 0.0, 0.0, Silence())
  }

  /** The cell written this sample: `calculateAddress(nROW, nCOLUMN)`,
      which is the write cell of the write counter. */
  function WritePosition(c: Counters): (cell: int)
    requires CountersInv(c)
    ensures 0 <= cell < MemorySize
    ensures cell == WriteCell(c.writeAddress)
  {
    WriteTapAddress(c.writeAddress);
    CalculateAddress(ToUShort(c.nRow), ToUShort(c.nColumn))
  }

  /** The memory after this sample's write: exactly one cell, the write
      cell of the write counter, changes, and it holds the input sample. */
  function Written(s: ChipState, x: real): (m: seq<real>)
    requires Inv(s)
    ensures |m| == MemorySize
    ensures m[WriteCell(s.ctr.writeAddress)] == x
    ensures forall i :: 0 <= i < MemorySize && i != WriteCell(s.ctr.writeAddress) ==> m[i] == s.memory[i]
  {
    s.memory[WritePosition(s.ctr) := x]
  }

  /** The first `n` feedback taps, in the order the loop reads them. */
  function FeedbackTapsUpTo(c: Counters, t: Tables, base: BaseAddrs, n: nat): (taps: seq<Tap>)
    requires CountersInv(c) && Fits(t, base) && n <= FeedbackTapCount
    ensures |taps| == n && AddressesInRange(taps)
  {
    if n == 0 then []
    else
      BasesOfRanges(c.modCount);
      FeedbackTapsUpTo(c, t, base, n - 1) + [FeedbackTap(t, base, c.nRow, c.nColumn, c.bases, n - 1)]
  }

  /** Output taps `from` to `from + n - 1`, in order. */
  function OutputTapRange(c: Counters, t: Tables, base: BaseAddrs, from: nat, n: nat): (taps: seq<Tap>)
    requires CountersInv(c) && Fits(t, base) && from + n <= 8
    ensures |taps| == n && AddressesInRange(taps)
  {
    if n == 0 then []
    else OutputTapRange(c, t, base, from, n - 1) + [OutputTap(t, base, c.nRow, c.nColumn, from + n - 1)]
  }

  /** Element `i` of the first `n` feedback taps is feedback tap `i`. */
  lemma {:induction false} FeedbackTapsUpToAt(c: Counters, t: Tables, base: BaseAddrs, n: nat)
    requires CountersInv(c) && Fits(t, base) && n <= FeedbackTapCount
    ensures BasesInRange(c.bases)
    ensures forall i :: 0 <= i < n ==> FeedbackTapsUpTo(c, t, base, n)[i] == FeedbackTap(t, base, c.nRow, c.nColumn, c.bases, i)
  {
    BasesOfRanges(c.modCount);
    forall i | 0 <= i < n
      ensures FeedbackTapsUpTo(c, t, base, n)[i] == FeedbackTap(t, base, c.nRow, c.nColumn, c.bases, i)
    {
      FeedbackTapsUpToIndex(c, t, base, n, i);
    }
  }

  /** Element `i` of the first `n` feedback taps, one index at a time. */
  lemma {:induction false} FeedbackTapsUpToIndex(c: Counters, t: Tables, base: BaseAddrs, n: nat, i: nat)
    requires CountersInv(c) && Fits(t, base) && i < n <= FeedbackTapCount
    ensures BasesInRange(c.bases)
    ensures FeedbackTapsUpTo(c, t, base, n)[i] == FeedbackTap(t, base, c.nRow, c.nColumn, c.bases, i)
  {
    BasesOfRanges(c.modCount);
    if i < n - 1 {
      FeedbackTapsUpToIndex(c, t, base, n - 1, i);
    }
  }


  /** Element `i` of output taps `from..from+n-1` is output tap `from + i`. */
  lemma {:induction false} OutputTapRangeAt(c: Counters, t: Tables, base: BaseAddrs, from: nat, n: nat)
    requires CountersInv(c) && Fits(t, base) && from + n <= 8
    ensures forall i :: 0 <= i < n ==> OutputTapRange(c, t, base, from, n)[i] == OutputTap(t, base, c.nRow, c.nColumn, from + i)
  {
    if n > 0 {
      OutputTapRangeAt(c, t, base, from, n - 1);
    }
  }

  /** Feedback tap `d` of a sample, for `d` in 0..14. */
  lemma FeedbackTapsAt(c: Counters, t: Tables, base: BaseAddrs)
    requires CountersInv(c) && Fits(t, base)
    ensures BasesInRange(c.bases)
    ensures forall d :: 0 <= d < FeedbackTapCount ==> FeedbackTaps(c, t, base)[d] == FeedbackTap(t, base, c.nRow, c.nColumn, c.bases, d)
  {
    FeedbackTapsUpToAt(c, t, base, FeedbackTapCount);
  }

  /** Feedback tap `d` of a sample, as an element of its 15 taps. */
  lemma FeedbackTapAt(c: Counters, t: Tables, base: BaseAddrs, d: nat)
    requires CountersInv(c) && Fits(t, base) && d < FeedbackTapCount
    ensures BasesInRange(c.bases)
    ensures FeedbackTaps(c, t, base)[d] == FeedbackTap(t, base, c.nRow, c.nColumn, c.bases, d)
  {
    FeedbackTapsAt(c, t, base);
  }

  /** The left taps are output taps 0..2. */
  lemma LeftTapsAt(c: Counters, t: Tables, base: BaseAddrs)
    requires CountersInv(c) && Fits(t, base)
    ensures forall d :: 0 <= d < LeftTapCount ==> LeftTaps(c, t, base)[d] == OutputTap(t, base, c.nRow, c.nColumn, d)
  {
    OutputTapRangeAt(c, t, base, 0, LeftTapCount);
  }

  /** The right taps are output taps 4..7. */
  lemma RightTapsAt(c: Counters, t: Tables, base: BaseAddrs)
    requires CountersInv(c) && Fits(t, base)
    ensures forall d :: 0 <= d < RightTapCount ==> RightTaps(c, t, base)[d] == OutputTap(t, base, c.nRow, c.nColumn, 4 + d)
  {
    OutputTapRangeAt(c, t, base, 4, RightTapCount);
  }

  /** The 15 feedback taps of a sample. */
  function FeedbackTaps(c: Counters, t: Tables, base: BaseAddrs): (taps: seq<Tap>)
    requires CountersInv(c) && Fits(t, base)
    ensures |taps| == FeedbackTapCount && AddressesInRange(taps)
  {
    FeedbackTapsUpTo(c, t, base, FeedbackTapCount)
  }

  /** The left output taps are output taps 0..2; only three of them. */
  function LeftTaps(c: Counters, t: Tables, base: BaseAddrs): (taps: seq<Tap>)
    requires CountersInv(c) && Fits(t, base)
    ensures |taps| == LeftTapCount && AddressesInRange(taps)
  {
    OutputTapRange(c, t, base, 0, LeftTapCount)
  }

  /** The right output taps are output taps 4..7. */
  function RightTaps(c: Counters, t: Tables, base: BaseAddrs): (taps: seq<Tap>)
    requires CountersInv(c) && Fits(t, base)
    ensures |taps| == RightTapCount && AddressesInRange(taps)
  {
    OutputTapRange(c, t, base, 4, RightTapCount)
  }

  /** The feedback sample: every tap reads the memory after this sample's
      write, and the sum continues from the previous value of the
      accumulator; it is divided by 15. */
  function FeedbackSample(s: ChipState, x: real, t: Tables, base: BaseAddrs): (feedback: real)
    requires Inv(s) && Fits(t, base)
  {
    (s.feedbackTaps + TapSum(Written(s, x), FeedbackTaps(s.ctr, t, base))) / 15.0
  }

  /** The left sample: the output accumulator plus the left taps, divided
      by 4. */
  function LeftSample(s: ChipState, x: real, t: Tables, base: BaseAddrs): (left: real)
    requires Inv(s) && Fits(t, base)
  {
    (s.outputTaps + TapSum(Written(s, x), LeftTaps(s.ctr, t, base))) / 4.0
  }

  /** The right sample: the right taps continue from the left result, and
      the sum is divided by 4 again. */
  function RightSample(s: ChipState, x: real, t: Tables, base: BaseAddrs): (right: real)
    requires Inv(s) && Fits(t, base)
  {
    (LeftSample(s, x, t, base) + TapSum(Written(s, x), RightTaps(s.ctr, t, base))) / 4.0
  }

  /** The three samples one iteration produces. */
  function Output(s: ChipState, x: real, t: Tables, base: BaseAddrs): (out: SampleOut)
    requires Inv(s) && Fits(t, base)
  {
    SampleOut(FeedbackSample(s, x, t, base), LeftSample(s, x, t, base), RightSample(s, x, t, base))
  }

  /** The phase counter after this sample, reloaded from U71 on reaching 16. */
  function NextClock(c: Counters, t: Tables, base: BaseAddrs): (clock: nat)
    requires CountersInv(c) && Fits(t, base)
    ensures clock <= 15
    ensures ModCarry(clock) == 1 <==> clock == 15
  {
    ClockStep(c.modClockOut, t.u71[base.modRateCount]);
    NextModClock(c.modClockOut, t.u71[base.modRateCount])
  }

  /** The modulation counter after this sample: advanced only on a carry. */
  function NextCount(c: Counters, t: Tables, base: BaseAddrs): (m: int)
    requires CountersInv(c) && Fits(t, base)
    ensures 0 <= m < ModCountPeriod
  {
    ModCountWraps(c.modCount);
    if ModCarry(NextClock(c, t, base)) == 1 then NextModCount(c.modCount) else c.modCount
  }

  /** The counters after one iteration of the per-sample loop. */
  function Tick(c: Counters, t: Tables, base: BaseAddrs): (r: Counters)
    requires CountersInv(c) && Fits(t, base)
    ensures CountersInv(r)
  {
    var w := CountWriteAddress(c.writeAddress);
    var modCount := NextCount(c, t, base);
    var bases := if ModCarry(NextClock(c, t, base)) == 1 then BasesOf(modCount) else c.bases;
    Counters(ToByte(w), w / 256, w, NextClock(c, t, base), modCount, bases)
  }

  /** The state after one iteration of the per-sample loop. */
  function Next(s: ChipState, x: real, t: Tables, base: BaseAddrs): (r: ChipState)
    requires Inv(s) && Fits(t, base)
    ensures Inv(r)
  {
    ChipState(Tick(s.ctr, t, base), FeedbackSample(s, x, t, base), RightSample(s, x, t, base), Written(s, x))
  }

  /** A state whose counters have ticked, whose running sums are the
      feedback and right samples and whose memory holds the write is the
      next state. */
  lemma NextOfParts(s: ChipState, x: real, t: Tables, base: BaseAddrs, r: ChipState)
    requires Inv(s) && Fits(t, base)
    requires r.ctr == Tick(s.ctr, t, base) && r.memory == Written(s, x)
    requires r.feedbackTaps == FeedbackSample(s, x, t, base) && r.outputTaps == RightSample(s, x, t, base)
    ensures r == Next(s, x, t, base)
  {
  }

  /** The state after a block of samples. */
  function Run(s: ChipState, xs: seq<real>, t: Tables, base: BaseAddrs): (r: ChipState)
    requires Inv(s) && Fits(t, base)
    ensures Inv(r)
  {
    if xs == [] then s else Next(Run(s, xs[..|xs| - 1], t, base), xs[|xs| - 1], t, base)
  }

  /** The samples a block produces, one per input sample. */
  function Outputs(s: ChipState, xs: seq<real>, t: Tables, base: BaseAddrs): (outs: seq<SampleOut>)
    requires Inv(s) && Fits(t, base)
    ensures |outs| == |xs|
  {
    if xs == [] then []
    else
      var prefix := xs[..|xs| - 1];
      Outputs(s, prefix, t, base) + [Output(Run(s, prefix, t, base), xs[|xs| - 1], t, base)]
  }

  /** One more sample at the end of a block: the state is one more step
      of `Next`, and the outputs gain that state's output. */
  lemma RunStep(s: ChipState, xs: seq<real>, x: real, t: Tables, base: BaseAddrs)
    requires Inv(s) && Fits(t, base)
    ensures Run(s, xs + [x], t, base) == Next(Run(s, xs, t, base), x, t, base)
    ensures Outputs(s, xs + [x], t, base) == Outputs(s, xs, t, base) + [Output(Run(s, xs, t, base), x, t, base)]
  {
    DropLast(xs, x);
  }

  /** Appending a sample, then dropping the last one, gives the samples
      back. */
  lemma DropLast(xs: seq<real>, x: real)
    ensures (xs + [x])[..|xs|] == xs && (xs + [x])[|xs|] == x
  {
  }

  /** The first `y + 1` samples of a block are the first `y` and sample `y`. */
  lemma PrefixStep(xs: seq<real>, y: nat)
    requires y < |xs|
    ensures xs[..y] + [xs[y]] == xs[..y + 1]
  {
  }

  /** Dropping the last element, then taking `i` elements, is taking `i`
      elements. */
  lemma PrefixOfPrefix(xs: seq<real>, i: nat)
    requires i < |xs|
    ensures i < |xs| - 1 ==> xs[..|xs| - 1][..i] == xs[..i] && xs[..|xs| - 1][i] == xs[i]
    ensures i == |xs| - 1 ==> xs[..|xs| - 1] == xs[..i]
  {
  }

  /** Sample `i` of a block is the output of the state the first `i`
      samples lead to, on input sample `i`. */
  lemma {:induction false} OutputsAt(s: ChipState, xs: seq<real>, t: Tables, base: BaseAddrs, i: nat)
    requires Inv(s) && Fits(t, base) && i < |xs|
    ensures Outputs(s, xs, t, base)[i] == Output(Run(s, xs[..i], t, base), xs[i], t, base)
  {
    var prefix := xs[..|xs| - 1];
    PrefixOfPrefix(xs, i);
    if i < |prefix| {
      OutputsAt(s, prefix, t, base, i);
    }
  }

  /** The write counter decreases by one modulo 16384 each sample, and the
      row and column counters follow it: `nCOLUMN` is its high part, in
      0..63, `nROW` its low byte. */
  lemma WriteCounterStep(c: Counters, t: Tables, base: BaseAddrs)
    requires CountersInv(c) && Fits(t, base)
    ensures Tick(c, t, base).writeAddress == (c.writeAddress - 1) % MemorySize
    ensures Tick(c, t, base).nColumn == Tick(c, t, base).writeAddress / 256 <= 63
    ensures Tick(c, t, base).nRow == Tick(c, t, base).writeAddress % 256
  {
  }

  /** The modulation counter advances, modulo 8192, exactly on the samples
      whose new phase is 15 (those with a carry); the phase stays in 0..15;
      the base addresses are always those of the modulation counter. */
  lemma ClockAndCounterStep(c: Counters, t: Tables, base: BaseAddrs)
    requires CountersInv(c) && Fits(t, base)
    ensures var r := Tick(c, t, base);
      && 0 <= r.modClockOut <= 15
      && r.modCount == (if r.modClockOut == 15 then (c.modCount + 1) % ModCountPeriod else c.modCount)
      && (r.modClockOut != 15 ==> r.bases == c.bases)
      && r.bases.gainModContBaseAddr == r.bases.delayModBaseAddr == (r.modCount / 64) * 32
      && r.bases.gainModBaseAddr % 8 == 0
      && BasesInRange(r.bases)
  {
    var r := Tick(c, t, base);
    ClockStep(c.modClockOut, t.u71[base.modRateCount]);
    ModCountWraps(c.modCount);
    BasesOfRanges(r.modCount);
  }

  /** The write path alone: the counters and the memory after a block,
      with the running sums left as they were. */
  function Evolve(s: ChipState, xs: seq<real>, t: Tables, base: BaseAddrs): (r: ChipState)
    requires Inv(s) && Fits(t, base)
    ensures Inv(r)
  {
    if xs == [] then s
    else
      var p := Evolve(s, xs[..|xs| - 1], t, base);
      p.(ctr := Tick(p.ctr, t, base), memory := Written(p, xs[|xs| - 1]))
  }

  /** One sample moves the counters by `Tick` and writes the memory by
      `Written`, whatever the running sums are. */
  lemma NextWritePath(s: ChipState, x: real, t: Tables, base: BaseAddrs)
    requires Inv(s) && Fits(t, base)
    ensures Next(s, x, t, base).ctr == Tick(s.ctr, t, base)
    ensures Next(s, x, t, base).memory == Written(s, x)
  {
  }

  /** The counters and the memory do not depend on the running sums: over
      any block they are those of the write path alone. */
  lemma {:induction false} RunIsEvolve(s: ChipState, xs: seq<real>, t: Tables, base: BaseAddrs)
    requires Inv(s) && Fits(t, base)
    ensures Run(s, xs, t, base).ctr == Evolve(s, xs, t, base).ctr
    ensures Run(s, xs, t, base).memory == Evolve(s, xs, t, base).memory
  {
    if xs != [] {
      var pre := xs[..|xs| - 1];
      RunIsEvolve(s, pre, t, base);
      NextWritePath(Run(s, pre, t, base), xs[|xs| - 1], t, base);
    }
  }

  /** After a block of `n` samples the write counter has counted down `n`
      times, i.e. moved back by `n` modulo 16384. */
  lemma {:induction false} EvolveWriteCounter(s: ChipState, xs: seq<real>, t: Tables, base: BaseAddrs)
    requires Inv(s) && Fits(t, base)
    ensures Evolve(s, xs, t, base).ctr.writeAddress == CountN(s.ctr.writeAddress, |xs|)
  {
    if xs != [] {
      EvolveWriteCounter(s, xs[..|xs| - 1], t, base);
    }
  }

  /** The write counter after a block of `n` samples: counted down `n`
      times. */
  lemma RunWriteCounter(s: ChipState, xs: seq<real>, t: Tables, base: BaseAddrs)
    requires Inv(s) && Fits(t, base)
    ensures Run(s, xs, t, base).ctr.writeAddress == CountN(s.ctr.writeAddress, |xs|)
  {
    RunIsEvolve(s, xs, t, base);
    EvolveWriteCounter(s, xs, t, base);
  }

  /** The memory after a block of at most 16384 samples is the block
      written, in order, to the cells of the successive write-counter
      values. */
  lemma {:induction false} EvolveMemory(s: ChipState, xs: seq<real>, t: Tables, base: BaseAddrs)
    requires Inv(s) && Fits(t, base) && |xs| <= MemorySize
    ensures Evolve(s, xs, t, base).memory == WriteSeq(s.memory, WriteCells(s.ctr.writeAddress), xs)
  {
    if xs != [] {
      var pre := xs[..|xs| - 1];
      EvolveMemory(s, pre, t, base);
      EvolveWriteCounter(s, pre, t, base);
      WriteCellsAt(s.ctr.writeAddress, |xs| - 1);
    }
  }

  /** After a block of at most 16384 samples the memory is a circular
      buffer laid out in folded order: input sample `k` sits in the write
      cell of the `k`-th counter value, and every cell the block did not
      write is as before. */
  lemma RunCircular(s: ChipState, xs: seq<real>, t: Tables, base: BaseAddrs)
    requires Inv(s) && Fits(t, base) && |xs| <= MemorySize
    ensures forall k :: 0 <= k < |xs| ==>
              Run(s, xs, t, base).memory[WriteCell(CountN(s.ctr.writeAddress, k))] == xs[k]
    ensures forall c :: 0 <= c < MemorySize && c !in WriteCells(s.ctr.writeAddress)[..|xs|] ==>
              Run(s, xs, t, base).memory[c] == s.memory[c]
  {
    RunIsEvolve(s, xs, t, base);
    EvolveMemory(s, xs, t, base);
    CircularHolds(s.memory, Run(s, xs, t, base).memory, s.ctr.writeAddress, xs);
    CircularKeeps(s.memory, Run(s, xs, t, base).memory, s.ctr.writeAddress, xs);
  }

  lemma CircularHolds(m0: seq<real>, m: seq<real>, w: int, xs: seq<real>)
    requires 0 <= w < MemorySize && |m0| == MemorySize && |xs| <= MemorySize
    requires m == WriteSeq(m0, WriteCells(w), xs)
    ensures forall k :: 0 <= k < |xs| ==> m[WriteCell(CountN(w, k))] == xs[k]
  {
    WriteCellsAreDistinct(w);
    WriteSeqHolds(m0, WriteCells(w), xs);
    forall k | 0 <= k < |xs|
      ensures m[WriteCell(CountN(w, k))] == xs[k]
    {
      WriteCellsAt(w, k);
    }
  }

  lemma CircularKeeps(m0: seq<real>, m: seq<real>, w: int, xs: seq<real>)
    requires 0 <= w < MemorySize && |m0| == MemorySize && |xs| <= MemorySize
    requires m == WriteSeq(m0, WriteCells(w), xs)
    ensures forall c :: 0 <= c < MemorySize && c !in WriteCells(w)[..|xs|] ==> m[c] == m0[c]
  {
    WriteSeqKeeps(m0, WriteCells(w), xs);
  }

  /** The running sums are never reset: with a silent memory and a silent
      input the outputs are the previous accumulator values scaled down, the
      right one through the left one. */
  lemma SilentSample(s: ChipState, t: Tables, base: BaseAddrs)
    requires Inv(s) && Fits(t, base)
    requires forall i :: 0 <= i < MemorySize ==> s.memory[i] == 0.0
    ensures Output(s, 0.0, t, base).feedback == s.feedbackTaps / 15.0
    ensures Output(s, 0.0, t, base).left == s.outputTaps / 4.0
    ensures Output(s, 0.0, t, base).right == s.outputTaps / 16.0
  {
    SilentTapSums(s, t, base);
    OutputOfSilentTaps(s, t, base);
  }

  lemma OutputOfSilentTaps(s: ChipState, t: Tables, base: BaseAddrs)
    requires Inv(s) && Fits(t, base)
    requires TapSum(Written(s, 0.0), FeedbackTaps(s.ctr, t, base)) == 0.0
    requires TapSum(Written(s, 0.0), LeftTaps(s.ctr, t, base)) == 0.0
    requires TapSum(Written(s, 0.0), RightTaps(s.ctr, t, base)) == 0.0
    ensures Output(s, 0.0, t, base).feedback == s.feedbackTaps / 15.0
    ensures Output(s, 0.0, t, base).left == s.outputTaps / 4.0
    ensures Output(s, 0.0, t, base).right == s.outputTaps / 16.0
  {
  }

  lemma SilentTapSums(s: ChipState, t: Tables, base: BaseAddrs)
    requires Inv(s) && Fits(t, base)
    requires forall i :: 0 <= i < MemorySize ==> s.memory[i] == 0.0
    ensures TapSum(Written(s, 0.0), FeedbackTaps(s.ctr, t, base)) == 0.0
    ensures TapSum(Written(s, 0.0), LeftTaps(s.ctr, t, base)) == 0.0
    ensures TapSum(Written(s, 0.0), RightTaps(s.ctr, t, base)) == 0.0
  {
    var m := Written(s, 0.0);
    assert forall i :: 0 <= i < MemorySize ==> m[i] == 0.0;
    TapSumSilent(m, FeedbackTaps(s.ctr, t, base));
    TapSumSilent(m, LeftTaps(s.ctr, t, base));
    TapSumSilent(m, RightTaps(s.ctr, t, base));
  }
}
