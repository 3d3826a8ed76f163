/** Small shared vocabulary: optional values, results with an error side,
    and concatenation of a sequence of sequences. */
module Common {

  /** `None` stands for an absent value (in grids: the NaN missing marker). */
  datatype Option<+T> = None | Some(value: T)

  /** The outcome of a step that can raise in the original scripts. */
  datatype Result<+T, +E> = Ok(value: T) | Err(error: E)

  /** Concatenation in order (what `np.concatenate` and `pd.concat` do to a list of parts). */
  function Concat<T>(parts: seq<seq<T>>): seq<T>
  {
    if parts == [] then [] else Concat(parts[..|parts| - 1]) + parts[|parts| - 1]
  }

  lemma {:induction false} ConcatAppend<T>(a: seq<seq<T>>, b: seq<seq<T>>)
    ensures Concat(a + b) == Concat(a) + Concat(b)
    decreases |b|
  {
    if b == [] {
      assert a + b == a;
    } else {
      var b' := b[..|b| - 1];
      assert (a + b)[..|a + b| - 1] == a + b';
      ConcatAppend(a, b');
    }
  }

  /** Concatenating parts that all have length `width` gives |parts| * width elements. */
  lemma {:induction false} ConcatUniformLength<T>(parts: seq<seq<T>>, width: nat)
    requires forall k :: 0 <= k < |parts| ==> |parts[k]| == width
    ensures |Concat(parts)| == |parts| * width
  {
    if parts != [] {
      ConcatUniformLength(parts[..|parts| - 1], width);
      assert |parts| * width == (|parts| - 1) * width + width;
    }
  }

  /** Element `j` of part `i` sits at position i * width + j of the concatenation. */
  lemma {:induction false} ConcatUniformAt<T>(parts: seq<seq<T>>, width: nat, i: nat, j: nat)
    requires forall k :: 0 <= k < |parts| ==> |parts[k]| == width
    requires i < |parts| && j < width
    ensures i * width + j < |Concat(parts)|
    ensures Concat(parts)[i * width + j] == parts[i][j]
  {
    var n := |parts|;
    var init := parts[..n - 1];
    ConcatUniformLength(init, width);
    ConcatUniformLength(parts, width);
    if i < n - 1 {
      ConcatUniformAt(init, width, i, j);
      assert i * width + j < (i + 1) * width <= (n - 1) * width by {
        assert (i + 1) * width == i * width + width;
        MulMonotone(i + 1, n - 1, width);
      }
    } else {
      assert i * width == (n - 1) * width;
    }
  }

  /** An element is in the concatenation iff it is in one of the parts. */
  lemma {:induction false} ConcatMembers<T>(parts: seq<seq<T>>, x: T)
    ensures x in Concat(parts) <==> exists k :: 0 <= k < |parts| && x in parts[k]
  {
    if parts != [] {
      var init := parts[..|parts| - 1];
      ConcatMembers(init, x);
      assert forall k :: 0 <= k < |init| ==> init[k] == parts[k];
    }
  }

  lemma MulNonNegative(a: int, b: int)
    requires a >= 0 && b >= 0
    ensures a * b >= 0
  {
  }

  lemma MulMonotone(a: nat, b: nat, w: nat)
    requires a <= b
    ensures a * w <= b * w
  {
  }
}
