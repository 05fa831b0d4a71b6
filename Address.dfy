/** The delay-memory addressing of the chip: the row/column address
    folding of `calculateAddress` and the decrementing write counter of
    `countWriteAddress`. */
module Address {
  import opened Bits
  import opened DelayMemory

  /** Number of cells of the delay memory. */
  const MemorySize := 16384

  /** The folded delay-memory address of a 16-bit row and a 16-bit column,
      as the chip forms it: a row half (`RowDelay`) and a column half
      (`ColumnDelay`) that takes the row's high byte as a carry. */
  function CalculateAddress(rowInput: UShort, columnInput: UShort): (address: int)
    ensures 0 <= address < MemorySize
  {
    RowDelay(rowInput) + ColumnDelay(columnInput, DelayCarryOut(rowInput)) * 256
  }

  /** Low byte of the address: bit 6 and bit 7 of the row are extracted,
      bits 0-5 are shifted up one place and the two bits re-inserted. */
  function RowDelay(rowInput: UShort): (rowDelay: Byte)
  {
    var bit6 := ToByte(rowInput as int * 2) / 128;
    var msb := ToByte(rowInput) / 128;
    ToByte(Or(Or(ToByte(rowInput as int * 4) / 2, bit6), msb * 128))
  }

  /** The carry the row passes to the column: its high byte. */
  function DelayCarryOut(rowInput: UShort): (carry: Byte)
  {
    ToByte(rowInput / 256)
  }

  /** High part of the address: the column plus the carry, truncated to 16
      bits, of which only the low 6 bits survive the two shifts. */
  function ColumnDelay(columnInput: UShort, delayCarryOut: Byte): (r: int)
    ensures 0 <= r < 64
  {
    var result := ToUShort(columnInput + delayCarryOut);
    ToByte(result as int * 4) / 4
  }

  /** Reference definition of the row fold on one byte: bit 7 stays, bits
      0-5 move up one place and bit 6 becomes bit 0. */
  function RowFold(b: Byte): (a: Byte)
  {
    (b % 64) * 2 + (b / 64) % 2 + (b / 128) * 128
  }

  /** The inverse permutation of `RowFold`. */
  function RowUnfold(a: Byte): (b: Byte)
  {
    (a / 2) % 64 + (a % 2) * 64 + (a / 128) * 128
  }

  /** `RowFold` is a bijection on 0..255. */
  lemma RowFoldBijective(b: Byte)
    ensures RowUnfold(RowFold(b)) == b
    ensures RowFold(RowUnfold(b)) == b
  {
    var h, s, l := FoldInputParts(b);
    FoldRoundTrip(b, h, s, l);
    var h', s', l' := UnfoldInputParts(b);
    UnfoldRoundTrip(b, h', s', l');
  }

  /** Splits a byte into bit 7, bit 6 and bits 0-5. */
  lemma FoldInputParts(b: Byte) returns (h: int, s: int, l: int)
    ensures 0 <= h < 2 && 0 <= s < 2 && 0 <= l < 64 && b == 128 * h + 64 * s + l
  {
    h := b / 128;
    var rest := b % 128;
    s := rest / 64;
    l := rest % 64;
  }

  /** Splits a byte into bit 7, bits 1-6 and bit 0. */
  lemma UnfoldInputParts(b: Byte) returns (h: int, s: int, l: int)
    ensures 0 <= h < 2 && 0 <= s < 2 && 0 <= l < 64 && b == 128 * h + 2 * l + s
  {
    h := b / 128;
    var rest := b % 128;
    l := rest / 2;
    s := rest % 2;
  }

  lemma FoldRoundTrip(b: int, h: int, s: int, l: int)
    requires 0 <= h < 2 && 0 <= s < 2 && 0 <= l < 64 && b == 128 * h + 64 * s + l
    ensures 0 <= b < 256 && RowUnfold(RowFold(b)) == b
  {
    FoldParts(h, s, l);
    UnfoldParts(h, s, l);
  }

  lemma UnfoldRoundTrip(b: int, h: int, s: int, l: int)
    requires 0 <= h < 2 && 0 <= s < 2 && 0 <= l < 64 && b == 128 * h + 2 * l + s
    ensures 0 <= b < 256 && RowFold(RowUnfold(b)) == b
  {
    FoldParts(h, s, l);
    UnfoldParts(h, s, l);
  }

  lemma FoldParts(h: int, s: int, l: int)
    requires 0 <= h < 2 && 0 <= s < 2 && 0 <= l < 64
    ensures RowFold(128 * h + 64 * s + l) == 128 * h + 2 * l + s
  {
    var b := 128 * h + 64 * s + l;
    DivMod(b, 64, 2 * h + s, l);
    DivMod(2 * h + s, 2, h, s);
    DivMod(b, 128, h, 64 * s + l);
  }

  lemma UnfoldParts(h: int, s: int, l: int)
    requires 0 <= h < 2 && 0 <= s < 2 && 0 <= l < 64
    ensures RowUnfold(128 * h + 2 * l + s) == 128 * h + 64 * s + l
  {
    var a := 128 * h + 2 * l + s;
    DivMod(a, 2, 64 * h + l, s);
    DivMod(64 * h + l, 64, h, l);
    DivMod(a, 128, h, 2 * l + s);
  }

  /** The two parts of a folded address are computed separately: the low
      byte from the row's low byte only, the high part from the column plus
      the row's high byte, modulo 64. */
  lemma AddressFolding(rowInput: UShort, columnInput: UShort)
    ensures CalculateAddress(rowInput, columnInput) % 256 == RowFold(rowInput % 256)
    ensures CalculateAddress(rowInput, columnInput) / 256 == (columnInput + rowInput / 256) % 64
  {
    RowDelayFolds(rowInput);
    ColumnDelayKeepsLow6(columnInput, rowInput);
    DivModSplit(CalculateAddress(rowInput, columnInput), RowDelay(rowInput),
                ColumnDelay(columnInput, DelayCarryOut(rowInput)));
  }

  /** Row 0 and column 0 address cell 0. */
  lemma OriginAddress()
    ensures CalculateAddress(0, 0) == 0
  {
    AddressIsFoldedCell(0, 0);
  }

  /** Reference definition of the cell a row/column pair addresses: the
      row's low byte permuted by `RowFold`, above it the column plus the
      row's high byte, modulo 64. */
  function FoldedCell(row: nat, column: nat): (cell: int)
  {
    RowFold(row % 256) + ((column + row / 256) % 64) * 256
  }

  /** `CalculateAddress` computes the reference cell. */
  lemma AddressIsFoldedCell(rowInput: UShort, columnInput: UShort)
    ensures CalculateAddress(rowInput, columnInput) == FoldedCell(rowInput, columnInput)
  {
    RowDelayFolds(rowInput);
    ColumnDelayKeepsLow6(columnInput, rowInput);
  }

  lemma RowDelayFolds(rowInput: UShort)
    ensures RowDelay(rowInput) == RowFold(rowInput % 256)
  {
    var hb, b7, b6, lo := RowParts(rowInput);
    RowDelayFoldsParts(rowInput, hb, b7, b6, lo);
  }

  lemma RowDelayFoldsParts(r: int, hb: int, b7: int, b6: int, lo: int)
    requires 0 <= hb < 256 && 0 <= b7 < 2 && 0 <= b6 < 2 && 0 <= lo < 64
    requires r == 256 * hb + 128 * b7 + 64 * b6 + lo
    ensures 0 <= r < 0x1_0000 && RowDelay(r) == RowFold(r % 256)
  {
    RowDelayParts(hb, b7, b6, lo);
    RowBits(hb, b7, b6, lo);
    FoldParts(b7, b6, lo);
  }

  lemma RowDelayParts(hb: int, b7: int, b6: int, lo: int)
    requires 0 <= hb < 256 && 0 <= b7 < 2 && 0 <= b6 < 2 && 0 <= lo < 64
    ensures RowDelay(256 * hb + 128 * b7 + 64 * b6 + lo) == 128 * b7 + 2 * lo + b6
  {
    var r := 256 * hb + 128 * b7 + 64 * b6 + lo;
    RowBits(hb, b7, b6, lo);
    OrParts(lo, b6, b7);
    assert ToByte(r * 4) / 2 == lo * 2;
    assert ToByte(r * 2) / 128 == b6;
    assert ToByte(r) / 128 == b7;
  }

  /** The three disjoint bit groups OR together to their sum. */
  lemma OrParts(lo: int, b6: int, b7: int)
    requires 0 <= lo < 64 && 0 <= b6 < 2 && 0 <= b7 < 2
    ensures ToByte(Or(Or(lo * 2, b6), b7 * 128)) == 128 * b7 + 2 * lo + b6
  {
    OrLowBit(lo, b6);
    OrHighBit(2 * lo + b6, b7);
  }

  /** Bit 0 OR-ed into an even value. */
  lemma OrLowBit(lo: int, b6: int)
    requires 0 <= lo && 0 <= b6 < 2
    ensures Or(lo * 2, b6) == 2 * lo + b6
  {
    assert Pow2(1) == 2;
    OrCommutes(lo * 2, b6);
    OrDisjoint(b6, lo, 1);
  }

  /** Bit 7 OR-ed into a 7-bit value. */
  lemma OrHighBit(v: int, b7: int)
    requires 0 <= v < 128 && 0 <= b7
    ensures Or(v, b7 * 128) == v + b7 * 128
  {
    assert Pow2(7) == 128;
    OrDisjoint(v, b7, 7);
  }

  lemma ColumnDelayKeepsLow6(columnInput: UShort, rowInput: UShort)
    ensures ColumnDelay(columnInput, DelayCarryOut(rowInput)) == (columnInput + rowInput / 256) % 64
  {
    var result := ToUShort(columnInput + DelayCarryOut(rowInput));
    ColumnBits(result, columnInput + rowInput / 256);
  }

  lemma DivModSplit(x: int, lo: int, hi: int)
    requires 0 <= lo < 256 && x == lo + hi * 256
    ensures x % 256 == lo && x / 256 == hi
  {
    DivMod(x, 256, hi, lo);
  }

  /** Splits a 16-bit row into its high byte, bit 7, bit 6 and bits 0-5. */
  lemma RowParts(r: UShort) returns (hb: int, b7: int, b6: int, lo: int)
    ensures 0 <= hb < 256 && 0 <= b7 < 2 && 0 <= b6 < 2 && 0 <= lo < 64
    ensures r == 256 * hb + 128 * b7 + 64 * b6 + lo
  {
    hb := r / 256;
    var low := r % 256;
    b7 := low / 128;
    var rest := low % 128;
    b6 := rest / 64;
    lo := rest % 64;
  }

  /** The row-side shifts of `CalculateAddress`, bit by bit. */
  lemma RowBits(hb: int, b7: int, b6: int, lo: int)
    requires 0 <= hb < 256 && 0 <= b7 < 2 && 0 <= b6 < 2 && 0 <= lo < 64
    ensures var r := 256 * hb + 128 * b7 + 64 * b6 + lo;
      && (r * 4) % 256 / 2 == lo * 2
      && (r * 2) % 256 / 128 == b6
      && r % 256 / 128 == b7
      && r % 256 == 128 * b7 + 64 * b6 + lo
      && r / 256 == hb
  {
    var r := 256 * hb + 128 * b7 + 64 * b6 + lo;
    DivMod(r * 4, 256, 4 * hb + 2 * b7 + b6, 4 * lo);
    DivMod(4 * lo, 2, 2 * lo, 0);
    DivMod(r * 2, 256, 2 * hb + b7, 128 * b6 + 2 * lo);
    DivMod(128 * b6 + 2 * lo, 128, b6, 2 * lo);
    DivMod(r, 256, hb, 128 * b7 + 64 * b6 + lo);
    DivMod(128 * b7 + 64 * b6 + lo, 128, b7, 64 * b6 + lo);
  }

  /** The column-side truncations of `CalculateAddress`. */
  lemma ColumnBits(result: UShort, sum: int)
    requires 0 <= sum && result == sum % 0x1_0000
    ensures ToByte(result as int * 4) / 4 == sum % 64
  {
    var q, lo := result / 64, result % 64;
    DivMod(result as int * 4, 256, q, 4 * lo);
    DivMod(4 * lo, 4, lo, 0);
    var k := sum / 0x1_0000;
    DivMod(sum, 64, 1024 * k + q, lo);
  }

  /** The cell the write tap uses when the write counter is `w`: the
      counter's high part (the column) stays, its low byte (the row) is
      folded. */
  function WriteCell(w: int): (cell: int)
    requires 0 <= w < MemorySize
    ensures 0 <= cell < MemorySize
  {
    RowFold(w % 256) + (w / 256) * 256
  }

  /** The write tap's `calculateAddress(nROW, nCOLUMN)`, with the row the
      counter's low byte and the column its high part, is that cell. */
  lemma WriteTapAddress(w: int)
    requires 0 <= w < MemorySize
    ensures CalculateAddress(ToByte(w), w / 256) == WriteCell(w)
  {
    var row, column := ToByte(w), w / 256;
    DivMod(w, 256, column, row);
    DivMod(row, 256, 0, row);
    DivMod(column, 64, 0, column);
    AddressFolding(row, column);
    var a := CalculateAddress(row, column);
    DivMod(a, 256, a / 256, a % 256);
  }

  /** Distinct write-counter values fold to distinct cells. */
  lemma WriteCellInjective(w1: int, w2: int)
    requires 0 <= w1 < MemorySize && 0 <= w2 < MemorySize
    requires WriteCell(w1) == WriteCell(w2)
    ensures w1 == w2
  {
    DivModSplit(WriteCell(w1), RowFold(w1 % 256), w1 / 256);
    DivModSplit(WriteCell(w2), RowFold(w2 % 256), w2 / 256);
    RowFoldBijective(w1 % 256);
    RowFoldBijective(w2 % 256);
  }

  /** Every cell is the write cell of exactly one counter value: the one
      this function returns. */
  function WriteCounterOf(cell: int): (w: int)
    requires 0 <= cell < MemorySize
    ensures 0 <= w < MemorySize && WriteCell(w) == cell
  {
    UnfoldedCell(cell, cell % 256, cell / 256);
    RowUnfold(cell % 256) + (cell / 256) * 256
  }

  lemma UnfoldedCell(cell: int, lo: int, hi: int)
    requires 0 <= lo < 256 && 0 <= hi < 64 && cell == lo + hi * 256
    ensures var w := RowUnfold(lo) + hi * 256; 0 <= w < MemorySize && WriteCell(w) == cell
  {
    var u := RowUnfold(lo);
    RowFoldBijective(lo);
    assert RowFold(u) == lo;
    WriteCellOf(u + hi * 256, u, hi);
  }

  /** The write cell of the counter value with low byte `lo` and high
      part `hi`. */
  lemma WriteCellOf(w: int, lo: int, hi: int)
    requires 0 <= lo < 256 && 0 <= hi < 64 && w == lo + hi * 256
    ensures 0 <= w < MemorySize && WriteCell(w) == RowFold(lo) + hi * 256
  {
    DivModSplit(w, lo, hi);
  }

  /** One decrement of the 16-bit signed write counter, with the chip's
      wrap-around to 16383 when it goes negative. */
  function CountWriteAddress(writeAddress: int): (r: int)
    requires -0x8000 <= writeAddress < 0x8000
    ensures 0 <= r < 0x8000
    ensures 0 <= writeAddress < MemorySize ==> r == (writeAddress - 1) % MemorySize
    ensures -0x8000 < writeAddress < 0 ==> r == MemorySize - 1
    ensures writeAddress == -0x8000 ==> r == 0x7FFF
  {
    var writeAddressIncr := ToShort(writeAddress - 1);
    if writeAddressIncr < 0 then 16383 else writeAddressIncr
  }

  /** The write counter after `n` decrements. */
  function CountN(w: int, n: nat): (r: int)
    requires 0 <= w < MemorySize
    ensures 0 <= r < MemorySize
  {
    if n == 0 then w else CountWriteAddress(CountN(w, n - 1))
  }

  /** `n` decrements move the counter back by `n` modulo the memory size. */
  lemma {:induction false} CountNIsModular(w: int, n: nat)
    requires 0 <= w < MemorySize
    ensures CountN(w, n) == (w - n) % MemorySize
  {
    if n > 0 {
      CountNIsModular(w, n - 1);
      DecrementModular(CountN(w, n - 1), w - (n - 1), w - n);
    }
  }

  lemma DecrementModular(c: int, x: int, y: int)
    requires 0 <= c < MemorySize && c == x % MemorySize && y == x - 1
    ensures CountWriteAddress(c) == y % MemorySize
  {
    ModDecrement(x, c);
  }

  lemma ModDecrement(x: int, c: int)
    requires c == x % MemorySize
    ensures (c - 1) % MemorySize == (x - 1) % MemorySize
  {
    var q := x / MemorySize;
    if c == 0 {
      DivMod(x - 1, MemorySize, q - 1, MemorySize - 1);
      DivMod(c - 1, MemorySize, -1, MemorySize - 1);
    } else {
      DivMod(x - 1, MemorySize, q, c - 1);
    }
  }

  /** Over 16384 consecutive samples the write tap visits 16384 distinct
      cells, that is, every cell exactly once. */
  lemma WriteCellsDistinct(w: int, i: nat, j: nat)
    requires 0 <= w < MemorySize
    requires i < j < MemorySize
    ensures WriteCell(CountN(w, i)) != WriteCell(CountN(w, j))
  {
    CountNIsModular(w, i);
    CountNIsModular(w, j);
    ModDistinct(w, i, j);
    if WriteCell(CountN(w, i)) == WriteCell(CountN(w, j)) {
      WriteCellInjective(CountN(w, i), CountN(w, j));
    }
  }

  /** The write cells of 16384 successive samples from counter value `w`,
      in order. */
  function WriteCells(w: int): (cells: seq<int>)
    requires 0 <= w < MemorySize
    ensures |cells| == MemorySize && InRange(cells, MemorySize)
  {
    seq(MemorySize, k requires 0 <= k < MemorySize => WriteCell(CountN(w, k)))
  }

  lemma WriteCellsAt(w: int, k: int)
    requires 0 <= w < MemorySize && 0 <= k < MemorySize
    ensures WriteCells(w)[k] == WriteCell(CountN(w, k))
  {
  }

  /** The write tap visits every cell once per 16384 samples. */
  lemma WriteCellsAreDistinct(w: int)
    requires 0 <= w < MemorySize
    ensures Distinct(WriteCells(w))
  {
    var cells := WriteCells(w);
    forall i, j | 0 <= i < j < |cells|
      ensures cells[i] != cells[j]
    {
      WriteCellsDistinct(w, i, j);
    }
  }

  /** After 16384 decrements the write counter is back where it started. */
  lemma WriteCounterPeriod(w: int)
    requires 0 <= w < MemorySize
    ensures CountN(w, MemorySize) == w
  {
    CountNIsModular(w, MemorySize);
    assert w - MemorySize == MemorySize * -1 + w;
  }

  lemma ModDistinct(w: int, i: int, j: int)
    requires 0 <= w < MemorySize && 0 <= i < j < MemorySize
    ensures (w - i) % MemorySize != (w - j) % MemorySize
  {
    var a, b := w - i, w - j;
    var qa, qb := a / MemorySize, b / MemorySize;
    assert a == MemorySize * qa + a % MemorySize;
    assert b == MemorySize * qb + b % MemorySize;
    assert 0 < a - b < MemorySize;
  }
}
