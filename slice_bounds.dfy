/**
 * The bound of the slice loops in `SetDefaults` and `CheckEmptyFields`
 * (internal/helper/helper.go:108 and 165). Both loop `i` from 0 up to the
 * slice's capacity and call `Index(i)`, which panics unless `i` is below the
 * slice's length. A Go slice's capacity may exceed its length (after an
 * `append`, say), so the loops as written can index past the end.
 *
 * The rest of the model loops to the length, as the walkers evidently
 * intend: `Defaults.SetSliceDefaults` and `EmptyFields.CheckSlice` visit
 * every element once and never index out of range.
 */
module SliceBounds {

  /** A Go slice header: the elements in use and the capacity behind them. */
  datatype GoSlice<T> = GoSlice(elems: seq<T>, cap: nat)
  {
    predicate Valid() { |elems| <= cap }
  }

  /** `Index(i)` on the slice succeeds. */
  predicate IndexInRange<T>(s: GoSlice<T>, i: int)
  {
    0 <= i < |s.elems|
  }

  /** The indices the slice loops pass to `Index`, as written: every `i` with
      `0 <= i < Cap()`. */
  function CapLoopIndices<T>(s: GoSlice<T>): (ix: seq<int>)
    ensures |ix| == s.cap
    ensures forall k :: 0 <= k < |ix| ==> ix[k] == k
  {
    seq(s.cap, k => k)
  }

  /** As written, the loop stays in range exactly when the capacity equals
      the length: any spare capacity makes it call `Index(Len())`. */
  lemma CapLoopInRangeIff<T>(s: GoSlice<T>)
    requires s.Valid()
    ensures (forall i :: i in CapLoopIndices(s) ==> IndexInRange(s, i)) <==> s.cap == |s.elems|
  {
    if s.cap != |s.elems| {
      assert CapLoopIndices(s)[|s.elems|] == |s.elems|;
      assert |s.elems| in CapLoopIndices(s) && !IndexInRange(s, |s.elems|);
    } else {
      forall i | i in CapLoopIndices(s) ensures IndexInRange(s, i) {
        var k :| 0 <= k < |CapLoopIndices(s)| && CapLoopIndices(s)[k] == i;
      }
    }
  }

  /** A slice of three elements with room for a fourth: the loop as written
      reaches `Index(3)`, which panics. */
  lemma CapLoopOverruns()
    ensures var s := GoSlice([10, 20, 30], 4);
            s.Valid() && 3 in CapLoopIndices(s) && !IndexInRange(s, 3)
  {
    assert CapLoopIndices(GoSlice([10, 20, 30], 4))[3] == 3;
  }
}
