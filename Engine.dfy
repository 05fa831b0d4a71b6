/** The plugin object's chip emulation as a class: the counters and the
    modulation base addresses are fields, the delay memory is an array of
    16384 samples and the tap descriptors (`delayTaps`, `gainCeiling`,
    `signMod`) are one array of 24 slots, all updated in place by the
    per-sample loop of `processBlock`. Each method is proved against the
    pure model of the chip. */
module Engine {
  import opened Bits
  import opened Address
  import opened Tables
  import opened ModClock
  import opened Taps
  import opened Chip

  /** Slots of the tap arrays: 0 is unused, 1-15 hold the feedback taps,
      16-18 the left output taps, 19 is unused, 20-23 the right ones. */
  const TapSlots := 24

  /** The slots `slots` with `xs` written into consecutive slots from
      `from` on. */
  function Fill(slots: seq<Tap>, from: nat, xs: seq<Tap>): (r: seq<Tap>)
    requires from + |xs| <= |slots|
    ensures |r| == |slots|
  {
    slots[..from] + xs + slots[from + |xs|..]
  }

  /** The filled slots hold `xs`; every other slot is as before. */
  lemma FillSlots(slots: seq<Tap>, from: nat, xs: seq<Tap>)
    requires from + |xs| <= |slots|
    ensures forall i :: 0 <= i < |xs| ==> Fill(slots, from, xs)[from + i] == xs[i]
    ensures forall i :: 0 <= i < |slots| && !(from <= i < from + |xs|) ==> Fill(slots, from, xs)[i] == slots[i]
  {
  }

  /** A prefix one longer is the prefix and the next element. */
  lemma TakeStep(xs: seq<Tap>, i: nat)
    requires i < |xs|
    ensures xs[..i + 1] == xs[..i] + [xs[i]]
  {
  }

  /** The whole prefix is the sequence. */
  lemma TakeAll(xs: seq<Tap>)
    ensures xs[..|xs|] == xs
  {
  }

  /** Filling nothing leaves the slots as they are. */
  lemma FillNothing(slots: seq<Tap>, from: nat)
    requires from <= |slots|
    ensures Fill(slots, from, []) == slots
  {
    assert slots[..from] + [] + slots[from..] == slots;
  }

  /** Writing one more element into the next slot extends the fill by
      that element. */
  lemma FillStep(slots: seq<Tap>, from: nat, xs: seq<Tap>, x: Tap)
    requires from + |xs| < |slots|
    ensures Fill(slots, from, xs)[from + |xs| := x] == Fill(slots, from, xs + [x])
  {
    var a := Fill(slots, from, xs)[from + |xs| := x];
    var b := Fill(slots, from, xs + [x]);
    assert |a| == |b|;
    forall i | 0 <= i < |a|
      ensures a[i] == b[i]
    {
      if from <= i < from + |xs| {
        assert b[i] == (xs + [x])[i - from] == xs[i - from];
      }
    }
  }

  /** The tap slots after one sample whose counters were `c`: the feedback,
      left and right descriptors written over `slots`. */
  function SlotsAfter(slots: seq<Tap>, c: Counters, t: Tables, base: BaseAddrs): (r: seq<Tap>)
    requires |slots| == TapSlots && CountersInv(c) && Fits(t, base)
    ensures |r| == TapSlots
  {
    Fill(Fill(Fill(slots, 1, FeedbackTaps(c, t, base)), 16, LeftTaps(c, t, base)), 20, RightTaps(c, t, base))
  }

  /** Slot `i` after a sample: a descriptor of that sample in slots 1-18
      and 20-23, the old slot in 0 and 19. */
  lemma SlotsAfterAt(slots: seq<Tap>, c: Counters, t: Tables, base: BaseAddrs, i: nat)
    requires |slots| == TapSlots && CountersInv(c) && Fits(t, base) && i < TapSlots
    ensures SlotsAfter(slots, c, t, base)[i]
            == if 1 <= i < 16 then FeedbackTaps(c, t, base)[i - 1]
               else if 16 <= i < 19 then LeftTaps(c, t, base)[i - 16]
               else if 20 <= i then RightTaps(c, t, base)[i - 20]
               else slots[i]
  {
    var s1 := Fill(slots, 1, FeedbackTaps(c, t, base));
    var s2 := Fill(s1, 16, LeftTaps(c, t, base));
    FillSlots(slots, 1, FeedbackTaps(c, t, base));
    FillSlots(s1, 16, LeftTaps(c, t, base));
    FillSlots(s2, 20, RightTaps(c, t, base));
  }

  /** A later sample overwrites every slot an earlier one wrote, so the
      slots depend only on the last sample. */
  lemma SlotsOverwrite(slots: seq<Tap>, c1: Counters, c2: Counters, t: Tables, base: BaseAddrs)
    requires |slots| == TapSlots && CountersInv(c1) && CountersInv(c2) && Fits(t, base)
    ensures SlotsAfter(SlotsAfter(slots, c1, t, base), c2, t, base) == SlotsAfter(slots, c2, t, base)
  {
    var a := SlotsAfter(slots, c1, t, base);
    forall i | 0 <= i < TapSlots
      ensures SlotsAfter(a, c2, t, base)[i] == SlotsAfter(slots, c2, t, base)[i]
    {
      SlotsAfterAt(slots, c1, t, base, i);
      SlotsAfterAt(a, c2, t, base, i);
      SlotsAfterAt(slots, c2, t, base, i);
    }
  }

  /** The tap slots after the samples `xs` from state `s`, starting from
      `slots`: each sample writes its descriptors over the previous ones. */
  ghost function BlockSlots(slots: seq<Tap>, s: ChipState, xs: seq<real>, t: Tables, base: BaseAddrs): (r: seq<Tap>)
    requires |slots| == TapSlots && Inv(s) && Fits(t, base)
    ensures |r| == TapSlots
  {
    if xs == [] then slots
    else
      var prefix := xs[..|xs| - 1];
      SlotsAfter(BlockSlots(slots, s, prefix, t, base), Run(s, prefix, t, base).ctr, t, base)
  }

  /** After a non-empty block the slots hold the last sample's descriptors,
      over the slots as they were before the block. */
  lemma {:induction false} BlockSlotsLast(slots: seq<Tap>, s: ChipState, xs: seq<real>, t: Tables, base: BaseAddrs)
    requires |slots| == TapSlots && Inv(s) && Fits(t, base) && xs != []
    ensures BlockSlots(slots, s, xs, t, base) == SlotsAfter(slots, Run(s, xs[..|xs| - 1], t, base).ctr, t, base)
  {
    var prefix := xs[..|xs| - 1];
    if prefix != [] {
      BlockSlotsLast(slots, s, prefix, t, base);
      SlotsOverwrite(slots, Run(s, prefix[..|prefix| - 1], t, base).ctr, Run(s, prefix, t, base).ctr, t, base);
    }
  }

  /** The tap slots after a sample, as `Processor.Step` leaves them: slot
      `1 + d` holds feedback tap `d`, slot `16 + d` output tap `d` for the
      left taps `d` in 0..2 and the right taps `d` in 4..7, and slots 0 and
      19 are as before. */
  lemma SampleSlots(slots: seq<Tap>, c: Counters, t: Tables, base: BaseAddrs)
    requires |slots| == TapSlots && CountersInv(c) && Fits(t, base)
    ensures BasesInRange(c.bases)
    ensures var r := SlotsAfter(slots, c, t, base);
      && (forall d :: 0 <= d < FeedbackTapCount ==> r[1 + d] == FeedbackTap(t, base, c.nRow, c.nColumn, c.bases, d))
      && (forall d :: 0 <= d < LeftTapCount ==> r[16 + d] == OutputTap(t, base, c.nRow, c.nColumn, d))
      && (forall d :: 4 <= d < 8 ==> r[16 + d] == OutputTap(t, base, c.nRow, c.nColumn, d))
      && r[0] == slots[0] && r[19] == slots[19]
  {
    FeedbackTapsAt(c, t, base);
    LeftTapsAt(c, t, base);
    RightTapsAt(c, t, base);
    SlotsAfterAt(slots, c, t, base, 0);
    SlotsAfterAt(slots, c, t, base, 19);
    forall d | 0 <= d < FeedbackTapCount
      ensures SlotsAfter(slots, c, t, base)[1 + d] == FeedbackTap(t, base, c.nRow, c.nColumn, c.bases, d)
    {
      SlotsAfterAt(slots, c, t, base, 1 + d);
    }
    forall d | 0 <= d < 8 && d != 3
      ensures SlotsAfter(slots, c, t, base)[16 + d] == OutputTap(t, base, c.nRow, c.nColumn, d)
    {
      SlotsAfterAt(slots, c, t, base, 16 + d);
      if d >= 4 {
        assert RightTaps(c, t, base)[d - 4] == OutputTap(t, base, c.nRow, c.nColumn, 4 + (d - 4));
      }
    }
  }


  class Processor {
    var nRow: int
    var nColumn: int
    var writeAddress: int
    var modClockOut: int
    var modCount: int
    var gainModContBaseAddr: int
    var gainModBaseAddr: int
    var delayModBaseAddr: int
    var feedbackTaps: real
    var outputTaps: real
    var delay: array<real>
    var taps: array<Tap>

    /** The counter fields as a value of the pure model. */
    ghost function Ctr(): (c: Counters)
      reads this`nRow, this`nColumn, this`writeAddress, this`modClockOut, this`modCount,
            this`gainModContBaseAddr, this`gainModBaseAddr, this`delayModBaseAddr
    {
      Counters(nRow, nColumn, writeAddress, modClockOut, modCount,
               ModBases(gainModContBaseAddr, gainModBaseAddr, delayModBaseAddr))
    }

    /** The whole chip state as a value of the pure model. */
    ghost function State(): (s: ChipState)
      reads this, delay
    {
      ChipState(Ctr(), feedbackTaps, outputTaps, delay[..])
    }

    ghost predicate Valid()
      reads this`delay, this`taps, this`nRow, this`nColumn, this`writeAddress, this`modClockOut,
            this`modCount, this`gainModContBaseAddr, this`gainModBaseAddr, this`delayModBaseAddr
    {
      delay.Length == MemorySize && taps.Length == TapSlots && CountersInv(Ctr())
    }

    /** A new processor with its delay buffer allocated and cleared, as
        `prepareToPlay` leaves it before the first block, and every counter
        at zero. */
    constructor()
      ensures Valid() && State() == Initial()
      ensures fresh(delay) && fresh(taps)
    {
      nRow, nColumn, writeAddress := 0, 0, 0;
      modClockOut, modCount := 0, 0;
      gainModContBaseAddr, gainModBaseAddr, delayModBaseAddr := 0, 0, 0;
      feedbackTaps, outputTaps := 0.0, 0.0;
      delay := new real[MemorySize](_ => 0.0);
      taps := new Tap[TapSlots](_ => Tap(0, 0, 0));
      new;
      assert delay[..] == Silence();
    }

    /** `prepareToPlay`: the buffer keeps its 16384 cells and is cleared in
        place; the counters and the running sums are left as they are. */
    method PrepareToPlay()
      requires Valid()
      modifies delay
      ensures Valid()
      ensures State() == old(State()).(memory := Silence())
    {
      var i := 0;
      while i < delay.Length
        invariant 0 <= i <= delay.Length
        invariant forall k :: 0 <= k < i ==> delay[k] == 0.0
      {
        delay[i] := 0.0;
        i := i + 1;
      }
      assert delay[..] == Silence();
    }

    /** The write tap: the input sample goes to `calculateAddress(nROW,
        nCOLUMN)`. */
    method WriteInput(x: real, ghost s: ChipState)
      requires Valid() && State() == s
      modifies delay
      ensures Valid() && Ctr() == s.ctr
      ensures delay[..] == Written(s, x)
    {
      var rowInput := ToUShort(nRow);
      var columnInput := ToUShort(nColumn);
      var writePosition := CalculateAddress(rowInput, columnInput);
      delay[writePosition] := x;
    }

    /** The 15 feedback taps: each descriptor goes to slot `1 + d` and its
        weighted read is added to `mFeedbackTaps`. */
    method FeedbackLoop(t: Tables, base: BaseAddrs, ghost c: Counters, ghost m: seq<real>)
      requires Valid() && Fits(t, base) && Ctr() == c && delay[..] == m
      modifies this`feedbackTaps, taps
      ensures Valid() && Ctr() == c && delay[..] == m
      ensures feedbackTaps == old(feedbackTaps) + TapSum(m, FeedbackTaps(c, t, base))
      ensures taps[..] == Fill(old(taps[..]), 1, FeedbackTaps(c, t, base))
    {
      ghost var slots := taps[..];
      ghost var all := FeedbackTaps(c, t, base);
      var bases := ModBases(gainModContBaseAddr, gainModBaseAddr, delayModBaseAddr);
      var d := 0;
      while d < FeedbackTapCount
        invariant 0 <= d <= FeedbackTapCount
        invariant feedbackTaps == old(feedbackTaps) + TapSum(m, all[..d])
        invariant taps[..] == Fill(slots, 1, all[..d])
      {
        var tap := FeedbackTapPass(t, base, bases, d, c, m, slots, old(feedbackTaps));
        d := d + 1;
      }
      TakeAll(all);
    }

    /** One pass of the feedback loop: tap `d` is derived, stored in slot
        `1 + d`, and its weighted read added to `mFeedbackTaps`. */
    method FeedbackTapPass(t: Tables, base: BaseAddrs, bases: ModBases, d: nat, ghost c: Counters,
                           ghost m: seq<real>, ghost slots: seq<Tap>, ghost acc0: real)
      returns (tap: Tap)
      requires Fits(t, base) && CountersInv(c) && d < FeedbackTapCount
      requires c.nRow == nRow && c.nColumn == nColumn && c.bases == bases
      requires delay.Length == MemorySize && taps.Length == TapSlots && delay[..] == m
      requires feedbackTaps == acc0 + TapSum(m, FeedbackTaps(c, t, base)[..d])
      requires |slots| == TapSlots && taps[..] == Fill(slots, 1, FeedbackTaps(c, t, base)[..d])
      modifies this`feedbackTaps, taps
      ensures tap == FeedbackTaps(c, t, base)[d]
      ensures feedbackTaps == acc0 + TapSum(m, FeedbackTaps(c, t, base)[..d + 1])
      ensures taps[..] == Fill(slots, 1, FeedbackTaps(c, t, base)[..d + 1])
    {
      ghost var all := FeedbackTaps(c, t, base);
      ghost var done := all[..d];
      FeedbackTapAt(c, t, base, d);
      TakeStep(all, d);
      tap := FeedbackTap(t, base, nRow, nColumn, bases, d);
      FillStep(slots, 1, done, tap);
      taps[1 + d] := tap;
      var feedbackGain := TapGain(tap);
      var read := delay[tap.address];
      TapSumStep(acc0, feedbackTaps, m, done, tap, read, feedbackGain);
      feedbackTaps := feedbackTaps + read * feedbackGain;
    }

    /** The left output taps, `d = 0..2`, into slots `16 + d`, added to
        `mOutputTaps`. */
    method LeftLoop(t: Tables, base: BaseAddrs, ghost c: Counters, ghost m: seq<real>)
      requires Valid() && Fits(t, base) && Ctr() == c && delay[..] == m
      modifies this`outputTaps, taps
      ensures Valid() && Ctr() == c && delay[..] == m
      ensures outputTaps == old(outputTaps) + TapSum(m, LeftTaps(c, t, base))
      ensures taps[..] == Fill(old(taps[..]), 16, LeftTaps(c, t, base))
    {
      ghost var slots := taps[..];
      ghost var done: seq<Tap> := [];
      FillNothing(slots, 16);
      var d := 0;
      while d < LeftTapCount
        invariant 0 <= d <= LeftTapCount
        invariant done == OutputTapRange(c, t, base, 0, d)
        invariant outputTaps == old(outputTaps) + TapSum(m, done)
        invariant taps[..] == Fill(slots, 16, done)
      {
        var tap := OutputTapPass(t, base, d, 16, m, slots, done, old(outputTaps));
        done := done + [tap];
        d := d + 1;
      }
    }

    /** The right output taps, `d = 4..7`, into slots `16 + d`, added to
        `mOutputTaps`. */
    method RightLoop(t: Tables, base: BaseAddrs, ghost c: Counters, ghost m: seq<real>)
      requires Valid() && Fits(t, base) && Ctr() == c && delay[..] == m
      modifies this`outputTaps, taps
      ensures Valid() && Ctr() == c && delay[..] == m
      ensures outputTaps == old(outputTaps) + TapSum(m, RightTaps(c, t, base))
      ensures taps[..] == Fill(old(taps[..]), 20, RightTaps(c, t, base))
    {
      ghost var slots := taps[..];
      ghost var done: seq<Tap> := [];
      FillNothing(slots, 20);
      var d := 4;
      while d < 8
        invariant 4 <= d <= 8
        invariant done == OutputTapRange(c, t, base, 4, d - 4)
        invariant outputTaps == old(outputTaps) + TapSum(m, done)
        invariant taps[..] == Fill(slots, 20, done)
      {
        var tap := OutputTapPass(t, base, d, 20, m, slots, done, old(outputTaps));
        done := done + [tap];
        d := d + 1;
      }
    }

    /** One pass of an output loop: output tap `d` is derived, stored in
        slot `16 + d` (the next slot after those already filled from
        `from`), and its weighted read added to `mOutputTaps`. */
    method OutputTapPass(t: Tables, base: BaseAddrs, d: nat, ghost from: nat,
                         ghost m: seq<real>, ghost slots: seq<Tap>, ghost done: seq<Tap>, ghost acc0: real)
      returns (tap: Tap)
      requires Fits(t, base) && d < 8 && from + |done| == 16 + d
      requires delay.Length == MemorySize && taps.Length == TapSlots && 0 <= nRow && 0 <= nColumn
      requires delay[..] == m && AddressesInRange(done)
      requires outputTaps == acc0 + TapSum(m, done)
      requires |slots| == TapSlots && taps[..] == Fill(slots, from, done)
      modifies this`outputTaps, taps
      ensures tap == OutputTap(t, base, nRow, nColumn, d)
      ensures outputTaps == acc0 + TapSum(m, done + [tap])
      ensures taps[..] == Fill(slots, from, done + [tap])
    {
      tap := OutputTap(t, base, nRow, nColumn, d);
      FillStep(slots, from, done, tap);
      taps[16 + d] := tap;
      var outputGain := TapGain(tap);
      var read := delay[tap.address];
      TapSumStep(acc0, outputTaps, m, done, tap, read, outputGain);
      outputTaps := outputTaps + read * outputGain;
    }

    /** The modulation clock and the write-pointer countdown at the end of
        an iteration. */
    method AdvanceCounters(t: Tables, base: BaseAddrs, ghost c: Counters, ghost m: seq<real>)
      requires Valid() && Fits(t, base) && Ctr() == c && delay[..] == m
      modifies this`nRow, this`nColumn, this`writeAddress, this`modClockOut, this`modCount,
               this`gainModContBaseAddr, this`gainModBaseAddr, this`delayModBaseAddr
      ensures Valid() && Ctr() == Tick(c, t, base) && delay[..] == m
    {
      var modCarry := AdvanceClock(t, base, c);
      CountDown(c);
      AdvanceModulation(modCarry, t, base, c);
    }

    /** The phase counter counts up, is reloaded from U71 on reaching 16,
        and the carry is taken from the new phase. */
    method AdvanceClock(t: Tables, base: BaseAddrs, ghost c: Counters) returns (modCarry: int)
      requires Fits(t, base) && CountersInv(c) && modClockOut == c.modClockOut
      modifies this`modClockOut
      ensures modClockOut == NextClock(c, t, base) && modCarry == ModCarry(modClockOut)
    {
      modClockOut := modClockOut + 1;
      if modClockOut == 16 {
        var modRateCount := base.modRateCount;
        modClockOut := t.u71[modRateCount];
      }
      modCarry := (modClockOut + 1) / 16;
    }

    /** `countWriteAddress`, and the row and column counters taken from
        the new write counter. */
    method CountDown(ghost c: Counters)
      requires CountersInv(c) && writeAddress == c.writeAddress
      modifies this`nRow, this`nColumn, this`writeAddress
      ensures writeAddress == CountWriteAddress(c.writeAddress)
      ensures nRow == ToByte(writeAddress) && nColumn == writeAddress / 256
    {
      nRow := ToByte(CountWriteAddress(writeAddress));
      nColumn := CountWriteAddress(writeAddress) / 256;
      writeAddress := CountWriteAddress(writeAddress);
    }

    /** On a carry the modulation counter advances, wrapping past 8191, and
        the three modulation base addresses are recomputed from it. */
    method AdvanceModulation(modCarry: int, t: Tables, base: BaseAddrs, ghost c: Counters)
      requires Fits(t, base) && CountersInv(c) && modCarry == ModCarry(NextClock(c, t, base))
      requires modCount == c.modCount
      requires ModBases(gainModContBaseAddr, gainModBaseAddr, delayModBaseAddr) == c.bases
      modifies this`modCount, this`gainModContBaseAddr, this`gainModBaseAddr, this`delayModBaseAddr
      ensures modCount == NextCount(c, t, base)
      ensures ModBases(gainModContBaseAddr, gainModBaseAddr, delayModBaseAddr)
           == if modCarry == 1 then BasesOf(modCount) else c.bases
    {
      if modCarry == 1 {
        modCount := modCount + 1;
        if modCount > 8191 {
          modCount := 0;
        }
        gainModContBaseAddr := (modCount / 64) * 32;
        gainModBaseAddr := ToUShort(modCount * 128) / 16;
        var delayModCount := modCount / 64;
        delayModBaseAddr := delayModCount * 32;
      }
    }

    /** The feedback taps and the division by 15: `mFeedbackTaps` becomes
        the feedback sample. */
    method FeedbackPart(x: real, t: Tables, base: BaseAddrs, ghost s: ChipState) returns (feedback: real)
      requires Valid() && Fits(t, base) && Inv(s) && Ctr() == s.ctr && feedbackTaps == s.feedbackTaps
      requires delay[..] == Written(s, x)
      modifies this`feedbackTaps, taps
      ensures Valid() && Ctr() == s.ctr && delay[..] == Written(s, x)
      ensures feedback == feedbackTaps == FeedbackSample(s, x, t, base)
      ensures taps[..] == Fill(old(taps[..]), 1, FeedbackTaps(s.ctr, t, base))
    {
      FeedbackLoop(t, base, s.ctr, Written(s, x));
      feedbackTaps := feedbackTaps / 15.0;
      feedback := feedbackTaps;
    }

    /** The left output taps and the division by 4: the left sample. */
    method LeftPart(x: real, t: Tables, base: BaseAddrs, ghost s: ChipState) returns (left: real)
      requires Valid() && Fits(t, base) && Inv(s) && Ctr() == s.ctr && outputTaps == s.outputTaps
      requires delay[..] == Written(s, x)
      modifies this`outputTaps, taps
      ensures Valid() && Ctr() == s.ctr && delay[..] == Written(s, x) && feedbackTaps == old(feedbackTaps)
      ensures left == outputTaps == LeftSample(s, x, t, base)
      ensures taps[..] == Fill(old(taps[..]), 16, LeftTaps(s.ctr, t, base))
    {
      LeftLoop(t, base, s.ctr, Written(s, x));
      outputTaps := outputTaps / 4.0;
      left := outputTaps;
    }

    /** The right output taps, on top of the left sample, and the division
        by 4: the right sample. */
    method RightPart(x: real, t: Tables, base: BaseAddrs, ghost s: ChipState) returns (right: real)
      requires Valid() && Fits(t, base) && Inv(s) && Ctr() == s.ctr && outputTaps == LeftSample(s, x, t, base)
      requires delay[..] == Written(s, x)
      modifies this`outputTaps, taps
      ensures Valid() && Ctr() == s.ctr && delay[..] == Written(s, x) && feedbackTaps == old(feedbackTaps)
      ensures right == outputTaps == RightSample(s, x, t, base)
      ensures taps[..] == Fill(old(taps[..]), 20, RightTaps(s.ctr, t, base))
    {
      RightLoop(t, base, s.ctr, Written(s, x));
      outputTaps := outputTaps / 4.0;
      right := outputTaps;
    }

    /** The first half of an iteration: the write of `x` and the three tap
        sums; the counters are not yet advanced. */
    method WriteAndRead(x: real, t: Tables, base: BaseAddrs, ghost s: ChipState) returns (out: SampleOut)
      requires Valid() && Fits(t, base) && State() == s
      modifies delay, this`feedbackTaps, this`outputTaps, taps
      ensures Valid() && Ctr() == s.ctr && delay[..] == Written(s, x)
      ensures feedbackTaps == FeedbackSample(s, x, t, base) && outputTaps == RightSample(s, x, t, base)
      ensures out == Output(s, x, t, base)
      ensures taps[..] == Fill(Fill(Fill(old(taps[..]), 1, FeedbackTaps(s.ctr, t, base)),
                                    16, LeftTaps(s.ctr, t, base)),
                               20, RightTaps(s.ctr, t, base))
    {
      WriteInput(x, s);
      var feedback := FeedbackPart(x, t, base, s);
      var left := LeftPart(x, t, base, s);
      var right := RightPart(x, t, base, s);
      out := SampleOut(feedback, left, right);
    }

    /** One iteration of the per-sample loop on input sample `x`: the new
        state is the model's next state, the three samples written out are
        the model's output, and the tap array holds the descriptors of this
        sample. */
    method Step(x: real, t: Tables, p: Params, ghost s: ChipState) returns (out: SampleOut)
      requires Valid() && Fits(t, BaseAddresses(p)) && State() == s
      modifies this, delay, taps
      ensures Valid() && delay == old(delay) && taps == old(taps)
      ensures State() == Next(s, x, t, BaseAddresses(p))
      ensures out == Output(s, x, t, BaseAddresses(p))
      ensures taps[..] == Fill(Fill(Fill(old(taps[..]),
                                         1, FeedbackTaps(s.ctr, t, BaseAddresses(p))),
                                    16, LeftTaps(s.ctr, t, BaseAddresses(p))),
                               20, RightTaps(s.ctr, t, BaseAddresses(p)))
    {
      var base := BaseAddresses(p);
      out := WriteAndRead(x, t, base, s);
      AdvanceCounters(t, base, s.ctr, Written(s, x));
      NextOfParts(s, x, t, base, State());
    }

    /** The output buffers begin with `outs`: the feedback buffer and the
        left and right channels. */
    static ghost predicate Stored(feedback: array<real>, left: array<real>, right: array<real>,
                                  outs: seq<SampleOut>)
      reads feedback, left, right
    {
      && |outs| <= feedback.Length && |outs| <= left.Length && |outs| <= right.Length
      && feedback[..|outs|] == Column(outs, FeedbackChannel)
      && left[..|outs|] == Column(outs, LeftChannel)
      && right[..|outs|] == Column(outs, RightChannel)
    }

    /** The three samples of one iteration are stored at `y`. */
    static method Emit(feedback: array<real>, left: array<real>, right: array<real>, y: nat,
                       out: SampleOut, ghost outs: seq<SampleOut>)
      requires y < feedback.Length && y < left.Length && y < right.Length && |outs| == y
      requires feedback != left && feedback != right && left != right
      requires Stored(feedback, left, right, outs)
      modifies feedback, left, right
      ensures Stored(feedback, left, right, outs + [out])
    {
      feedback[y] := out.feedback;
      left[y] := out.left;
      right[y] := out.right;
      ColumnAppend(outs, out, FeedbackChannel);
      ColumnAppend(outs, out, LeftChannel);
      ColumnAppend(outs, out, RightChannel);
      assert feedback[..y + 1] == old(feedback[..y]) + [out.feedback];
      assert left[..y + 1] == old(left[..y]) + [out.left];
      assert right[..y + 1] == old(right[..y]) + [out.right];
    }

    /** The per-sample loop over a block: the final state is the model's
        state after the block, and sample `y` of each output buffer is the
        model's output for input sample `y`. */
    method ProcessBlock(input: array<real>, feedback: array<real>, left: array<real>, right: array<real>,
                        t: Tables, p: Params)
      requires Valid() && Fits(t, BaseAddresses(p))
      requires feedback.Length == input.Length && left.Length == input.Length && right.Length == input.Length
      requires input != feedback && input != left && input != right
      requires feedback != left && feedback != right && left != right
      requires input != delay && feedback != delay && left != delay && right != delay
      modifies this, delay, taps, feedback, left, right
      ensures Valid() && delay == old(delay) && taps == old(taps)
      ensures State() == Run(old(State()), input[..], t, BaseAddresses(p))
      ensures feedback[..] == Column(Outputs(old(State()), input[..], t, BaseAddresses(p)), FeedbackChannel)
      ensures left[..] == Column(Outputs(old(State()), input[..], t, BaseAddresses(p)), LeftChannel)
      ensures right[..] == Column(Outputs(old(State()), input[..], t, BaseAddresses(p)), RightChannel)
      ensures taps[..] == BlockSlots(old(taps[..]), old(State()), input[..], t, BaseAddresses(p))
    {
      ghost var s0 := State();
      ghost var xs := input[..];
      ghost var slots0 := taps[..];
      ghost var outs: seq<SampleOut> := [];
      var y := 0;
      while y < input.Length
        invariant 0 <= y <= input.Length
        invariant input[..] == xs
        invariant Valid() && delay == old(delay) && taps == old(taps)
        invariant State() == Run(s0, xs[..y], t, BaseAddresses(p))
        invariant outs == Outputs(s0, xs[..y], t, BaseAddresses(p))
        invariant Stored(feedback, left, right, outs)
        invariant taps[..] == BlockSlots(slots0, s0, xs[..y], t, BaseAddresses(p))
      {
        outs := BlockSample(input[y], feedback, left, right, y, t, p, s0, xs, outs, slots0);
        y := y + 1;
      }
      assert xs[..y] == xs;
      StoredAll(feedback, left, right, outs);
    }

    /** Buffers that hold as many outputs as they have samples hold exactly
        those outputs. */
    static lemma StoredAll(feedback: array<real>, left: array<real>, right: array<real>, outs: seq<SampleOut>)
      requires Stored(feedback, left, right, outs)
      requires |outs| == feedback.Length && |outs| == left.Length && |outs| == right.Length
      ensures feedback[..] == Column(outs, FeedbackChannel)
      ensures left[..] == Column(outs, LeftChannel)
      ensures right[..] == Column(outs, RightChannel)
    {
      assert feedback[..] == feedback[..|outs|];
      assert left[..] == left[..|outs|];
      assert right[..] == right[..|outs|];
    }

    /** Iteration `y` of the per-sample loop of a block, in terms of the
        block so far: the state and the outputs are those of the first
        `y + 1` input samples. */
    method BlockSample(x: real, feedback: array<real>, left: array<real>, right: array<real>, y: nat,
                       t: Tables, p: Params, ghost s0: ChipState, ghost xs: seq<real>, ghost outs: seq<SampleOut>,
                       ghost slots0: seq<Tap>)
      returns (ghost outs': seq<SampleOut>)
      requires Valid() && Fits(t, BaseAddresses(p)) && Inv(s0) && y < |xs| && x == xs[y]
      requires y < feedback.Length && y < left.Length && y < right.Length
      requires feedback != left && feedback != right && left != right
      requires feedback != delay && left != delay && right != delay
      requires State() == Run(s0, xs[..y], t, BaseAddresses(p))
      requires outs == Outputs(s0, xs[..y], t, BaseAddresses(p))
      requires Stored(feedback, left, right, outs)
      requires |slots0| == TapSlots && taps[..] == BlockSlots(slots0, s0, xs[..y], t, BaseAddresses(p))
      modifies this, delay, taps, feedback, left, right
      ensures Valid() && delay == old(delay) && taps == old(taps)
      ensures State() == Run(s0, xs[..y + 1], t, BaseAddresses(p))
      ensures outs' == Outputs(s0, xs[..y + 1], t, BaseAddresses(p))
      ensures taps[..] == BlockSlots(slots0, s0, xs[..y + 1], t, BaseAddresses(p))
      ensures Stored(feedback, left, right, outs')
    {
      ghost var out := Sample(x, feedback, left, right, y, t, p, Run(s0, xs[..y], t, BaseAddresses(p)), outs);
      RunStep(s0, xs[..y], x, t, BaseAddresses(p));
      PrefixStep(xs, y);
      DropLast(xs[..y], x);
      outs' := outs + [out];
    }

    /** One iteration of the per-sample loop of a block: input sample `x`
        is processed and the three output samples are stored at `y`. */
    method Sample(x: real, feedback: array<real>, left: array<real>, right: array<real>, y: nat,
                  t: Tables, p: Params, ghost s: ChipState, ghost outs: seq<SampleOut>)
      returns (ghost out: SampleOut)
      requires Valid() && Fits(t, BaseAddresses(p)) && State() == s && |outs| == y
      requires y < feedback.Length && y < left.Length && y < right.Length
      requires feedback != left && feedback != right && left != right
      requires feedback != delay && left != delay && right != delay
      requires Stored(feedback, left, right, outs)
      modifies this, delay, taps, feedback, left, right
      ensures Valid() && delay == old(delay) && taps == old(taps)
      ensures State() == Next(s, x, t, BaseAddresses(p))
      ensures out == Output(s, x, t, BaseAddresses(p))
      ensures taps[..] == SlotsAfter(old(taps[..]), s.ctr, t, BaseAddresses(p))
      ensures Stored(feedback, left, right, outs + [out])
    {
      var o := Step(x, t, p, s);
      Emit(feedback, left, right, y, o, outs);
      out := o;
    }
  }
}
