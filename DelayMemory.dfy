/** The delay memory as a sequence of cells written one sample at a time,
    independent of how the cells are chosen. */
module DelayMemory {

  /** No cell occurs twice. */
  ghost predicate Distinct(cells: seq<int>)
  {
    forall i, j :: 0 <= i < j < |cells| ==> cells[i] != cells[j]
  }

  /** Every cell is a valid index of a memory of `size` cells. */
  predicate InRange(cells: seq<int>, size: int)
  {
    forall k :: 0 <= k < |cells| ==> 0 <= cells[k] < size
  }

  /** The memory `m0` after sample `xs[k]` was written to `cells[k]`, for
      `k` in order. */
  function WriteSeq(m0: seq<real>, cells: seq<int>, xs: seq<real>): (m: seq<real>)
    requires |xs| <= |cells| && InRange(cells, |m0|)
    ensures |m| == |m0|
  {
    if xs == [] then m0
    else WriteSeq(m0, cells, xs[..|xs| - 1])[cells[|xs| - 1] := xs[|xs| - 1]]
  }

  /** With distinct cells no write overwrites an earlier one: every sample
      is in its cell. */
  lemma {:induction false} WriteSeqHolds(m0: seq<real>, cells: seq<int>, xs: seq<real>)
    requires |xs| <= |cells| && InRange(cells, |m0|) && Distinct(cells)
    ensures forall k :: 0 <= k < |xs| ==> WriteSeq(m0, cells, xs)[cells[k]] == xs[k]
  {
    if xs != [] {
      var n := |xs| - 1;
      WriteSeqHolds(m0, cells, xs[..n]);
      forall k | 0 <= k < |xs|
        ensures WriteSeq(m0, cells, xs)[cells[k]] == xs[k]
      {
        if k < n {
          assert cells[k] != cells[n];
          assert xs[..n][k] == xs[k];
        }
      }
    }
  }

  /** A cell that none of the samples was written to is as before. */
  lemma {:induction false} WriteSeqKeeps(m0: seq<real>, cells: seq<int>, xs: seq<real>)
    requires |xs| <= |cells| && InRange(cells, |m0|)
    ensures forall c :: 0 <= c < |m0| && c !in cells[..|xs|] ==> WriteSeq(m0, cells, xs)[c] == m0[c]
  {
    if xs != [] {
      var n := |xs| - 1;
      WriteSeqKeeps(m0, cells, xs[..n]);
      forall c | 0 <= c < |m0| && c !in cells[..|xs|]
        ensures WriteSeq(m0, cells, xs)[c] == m0[c]
      {
        assert cells[n] in cells[..|xs|];
        assert c !in cells[..n] by {
          assert forall i :: 0 <= i < n ==> cells[..n][i] == cells[..|xs|][i];
        }
      }
    }
  }
}
