/** Gridded values: a time step of one variable on a (lat, lon) grid, with the
    NaN missing marker modelled as `None`. Flattening is row-major, as numpy's
    `flatten`, and the time-mean is taken cell by cell. */
module Grids {
  import opened Common

  /** One grid cell: `Some(v)` is a number, `None` the missing marker. */
  type Cell = Option<real>

  /** One time step: coordinate vectors and a |lats| x |lons| table of cells. */
  datatype Grid = Grid(lats: seq<real>, lons: seq<real>, cells: seq<seq<Cell>>)

  /** `g` lies on the grid spanned by `lats` and `lons`, one row per latitude. */
  predicate OnAxes(g: Grid, lats: seq<real>, lons: seq<real>)
  {
    && g.lats == lats && g.lons == lons
    && |g.cells| == |lats|
    && forall i :: 0 <= i < |g.cells| ==> |g.cells[i]| == |lons|
  }

  predicate AllOnAxes(steps: seq<Grid>, lats: seq<real>, lons: seq<real>)
  {
    forall k :: 0 <= k < |steps| ==> OnAxes(steps[k], lats, lons)
  }

  // ---------------------------------------------------------------- flattening

  /** The cells of one step in row-major order. */
  function Flatten(g: Grid): seq<Cell>
  {
    Concat(g.cells)
  }

  /** The cells of several steps, step after step (`values.flatten()` of a time x lat x lon cube). */
  function FlattenSteps(steps: seq<Grid>): seq<Cell>
  {
    if steps == [] then [] else FlattenSteps(steps[..|steps| - 1]) + Flatten(steps[|steps| - 1])
  }

  lemma FlattenShape(g: Grid, lats: seq<real>, lons: seq<real>, i: nat, j: nat)
    requires OnAxes(g, lats, lons) && i < |lats| && j < |lons|
    ensures |Flatten(g)| == |lats| * |lons|
    ensures i * |lons| + j < |lats| * |lons|
    ensures Flatten(g)[i * |lons| + j] == g.cells[i][j]
  {
    ConcatUniformLength(g.cells, |lons|);
    ConcatUniformAt(g.cells, |lons|, i, j);
  }

  lemma FlattenLength(g: Grid, lats: seq<real>, lons: seq<real>)
    requires OnAxes(g, lats, lons)
    ensures |Flatten(g)| == |lats| * |lons|
  {
    ConcatUniformLength(g.cells, |lons|);
  }

  /** Flattening a run of steps distributes over splitting the run. */
  lemma {:induction false} FlattenStepsAppend(a: seq<Grid>, b: seq<Grid>)
    ensures FlattenSteps(a + b) == FlattenSteps(a) + FlattenSteps(b)
    decreases |b|
  {
    if b == [] {
      assert a + b == a;
    } else {
      var b' := b[..|b| - 1];
      var last := b[|b| - 1];
      assert (a + b)[..|a + b| - 1] == a + b';
      assert (a + b)[|a + b| - 1] == last;
      calc {
        FlattenSteps(a + b);
        FlattenSteps(a + b') + Flatten(last);
        { FlattenStepsAppend(a, b'); }
        FlattenSteps(a) + FlattenSteps(b') + Flatten(last);
        FlattenSteps(a) + FlattenSteps(b);
      }
    }
  }

  /** A cube of |steps| steps on a |lats| x |lons| grid flattens to
      |steps| * |lats| * |lons| cells, and cell (i, j) of step k is found at
      k * |lats| * |lons| + i * |lons| + j. */
  lemma {:induction false} FlattenStepsShape(steps: seq<Grid>, lats: seq<real>, lons: seq<real>)
    requires AllOnAxes(steps, lats, lons)
    ensures |FlattenSteps(steps)| == |steps| * (|lats| * |lons|)
  {
    if steps != [] {
      var n := |steps|;
      FlattenStepsShape(steps[..n - 1], lats, lons);
      FlattenLength(steps[n - 1], lats, lons);
      assert n * (|lats| * |lons|) == (n - 1) * (|lats| * |lons|) + |lats| * |lons|;
    }
  }

  lemma {:induction false} FlattenStepsAt(steps: seq<Grid>, lats: seq<real>, lons: seq<real>, k: nat, i: nat, j: nat)
    requires AllOnAxes(steps, lats, lons)
    requires k < |steps| && i < |lats| && j < |lons|
    ensures k * (|lats| * |lons|) + i * |lons| + j < |FlattenSteps(steps)|
    ensures FlattenSteps(steps)[k * (|lats| * |lons|) + i * |lons| + j] == steps[k].cells[i][j]
  {
    var n := |steps|;
    var size := |lats| * |lons|;
    var init := steps[..n - 1];
    FlattenStepsShape(init, lats, lons);
    FlattenStepsShape(steps, lats, lons);
    FlattenShape(steps[k], lats, lons, i, j);
    if k < n - 1 {
      FlattenStepsAt(init, lats, lons, k, i, j);
      assert k * size + size <= (n - 1) * size by {
        assert k * size + size == (k + 1) * size;
        MulMonotone(k + 1, n - 1, size);
      }
    } else {
      assert k * size == (n - 1) * size;
    }
  }

  // ---------------------------------------------------------------- dropping missing values

  /** The numbers among `xs`, in order (`xs[~np.isnan(xs)]`). */
  function Present(xs: seq<Cell>): seq<real>
  {
    if xs == [] then []
    else Present(xs[..|xs| - 1]) + (match xs[|xs| - 1] case Some(v) => [v] case None => [])
  }

  lemma {:induction false} PresentAppend(a: seq<Cell>, b: seq<Cell>)
    ensures Present(a + b) == Present(a) + Present(b)
    decreases |b|
  {
    if b == [] {
      assert a + b == a;
    } else {
      var b' := b[..|b| - 1];
      assert (a + b)[..|a + b| - 1] == a + b';
      PresentAppend(a, b');
    }
  }

  /** Dropping missing values keeps exactly the numbers: `v` survives iff `Some(v)` was there. */
  lemma {:induction false} PresentMembers(xs: seq<Cell>, v: real)
    ensures v in Present(xs) <==> Some(v) in xs
  {
    if xs != [] {
      var init := xs[..|xs| - 1];
      PresentMembers(init, v);
      assert xs == init + [xs[|xs| - 1]];
    }
  }

  lemma {:induction false} PresentEmpty(xs: seq<Cell>)
    ensures Present(xs) == [] <==> forall k :: 0 <= k < |xs| ==> xs[k].None?
  {
    if xs != [] {
      var init := xs[..|xs| - 1];
      PresentEmpty(init);
      assert forall k :: 0 <= k < |init| ==> init[k] == xs[k];
    }
  }

  lemma {:induction false} PresentLength(xs: seq<Cell>)
    ensures |Present(xs)| <= |xs|
    ensures |Present(xs)| == |xs| <==> forall k :: 0 <= k < |xs| ==> xs[k].Some?
  {
    if xs != [] {
      var init := xs[..|xs| - 1];
      PresentLength(init);
      assert forall k :: 0 <= k < |init| ==> init[k] == xs[k];
    }
  }

  // ---------------------------------------------------------------- time-mean

  function Sum(vs: seq<real>): real
  {
    if vs == [] then 0.0 else Sum(vs[..|vs| - 1]) + vs[|vs| - 1]
  }

  lemma {:induction false} SumAppend(a: seq<real>, b: seq<real>)
    ensures Sum(a + b) == Sum(a) + Sum(b)
    decreases |b|
  {
    if b == [] {
      assert a + b == a;
    } else {
      var b' := b[..|b| - 1];
      assert (a + b)[..|a + b| - 1] == a + b';
      SumAppend(a, b');
    }
  }

  lemma {:induction false} SumBounds(vs: seq<real>, lo: real, hi: real)
    requires forall k :: 0 <= k < |vs| ==> lo <= vs[k] <= hi
    ensures |vs| as real * lo <= Sum(vs) <= |vs| as real * hi
  {
    if vs != [] {
      SumBounds(vs[..|vs| - 1], lo, hi);
    }
  }

  /** The mean of the numbers in a column of cells; missing when the column holds none. */
  function MeanOf(xs: seq<Cell>): (r: Cell)
    ensures r.None? <==> forall k :: 0 <= k < |xs| ==> xs[k].None?
  {
    PresentEmpty(xs);
    var p := Present(xs);
    if p == [] then None else Some(Sum(p) / |p| as real)
  }

  /** A mean lies between any bounds of the values it averages. */
  lemma MeanWithin(xs: seq<Cell>, lo: real, hi: real)
    requires forall k :: 0 <= k < |xs| ==> xs[k].None? || lo <= xs[k].value <= hi
    requires MeanOf(xs).Some?
    ensures lo <= MeanOf(xs).value <= hi
  {
    var p := Present(xs);
    forall k | 0 <= k < |p| ensures lo <= p[k] <= hi {
      PresentMembers(xs, p[k]);
    }
    SumBounds(p, lo, hi);
    var n := |p| as real;
    DivideBounds(Sum(p), n, lo, hi);
  }

  lemma DivideBounds(s: real, n: real, lo: real, hi: real)
    requires n > 0.0 && n * lo <= s <= n * hi
    ensures lo <= s / n <= hi
  {
    var m := s / n;
    assert s == m * n;
  }

  /** The values at cell (i, j) across the steps. */
  function Column(steps: seq<Grid>, lats: seq<real>, lons: seq<real>, i: nat, j: nat): seq<Cell>
    requires AllOnAxes(steps, lats, lons) && i < |lats| && j < |lons|
  {
    seq(|steps|, k requires 0 <= k < |steps| => steps[k].cells[i][j])
  }

  /** The elementwise mean along the time axis, on the given coordinates. */
  function MeanGrid(steps: seq<Grid>, lats: seq<real>, lons: seq<real>): (r: Grid)
    requires AllOnAxes(steps, lats, lons)
    ensures OnAxes(r, lats, lons)
  {
    Grid(lats, lons,
      seq(|lats|, i requires 0 <= i < |lats| =>
        seq(|lons|, j requires 0 <= j < |lons| => MeanOf(Column(steps, lats, lons, i, j)))))
  }

  /** A cell of the mean grid is missing exactly when it is missing in every step. */
  lemma MeanGridMissing(steps: seq<Grid>, lats: seq<real>, lons: seq<real>, i: nat, j: nat)
    requires AllOnAxes(steps, lats, lons) && i < |lats| && j < |lons|
    ensures MeanGrid(steps, lats, lons).cells[i][j].None? <==>
              forall k :: 0 <= k < |steps| ==> steps[k].cells[i][j].None?
  {
    var col := Column(steps, lats, lons, i, j);
    assert MeanGrid(steps, lats, lons).cells[i][j] == MeanOf(col);
    assert forall k :: 0 <= k < |steps| ==> col[k] == steps[k].cells[i][j];
  }

  /** Each cell of the mean grid lies between bounds that hold for that cell in every step. */
  lemma MeanGridWithin(steps: seq<Grid>, lats: seq<real>, lons: seq<real>, i: nat, j: nat, lo: real, hi: real)
    requires AllOnAxes(steps, lats, lons) && i < |lats| && j < |lons|
    requires forall k :: 0 <= k < |steps| ==> steps[k].cells[i][j].None? || lo <= steps[k].cells[i][j].value <= hi
    ensures MeanGrid(steps, lats, lons).cells[i][j].Some? ==> lo <= MeanGrid(steps, lats, lons).cells[i][j].value <= hi
  {
    var col := Column(steps, lats, lons, i, j);
    if MeanOf(col).Some? {
      MeanWithin(col, lo, hi);
    }
  }

  /** Cell (i, j) is missing in every step. */
  predicate MissingThroughout(steps: seq<Grid>, i: nat, j: nat)
  {
    forall k :: 0 <= k < |steps| ==> i < |steps[k].cells| && j < |steps[k].cells[i]| && steps[k].cells[i][j].None?
  }

  // ---------------------------------------------------------------- scaling

  /** Multiply a number by `factor`; NaN times anything stays NaN. */
  function ScaleCell(factor: real, c: Cell): Cell
  {
    match c
    case Some(v) => Some(v * factor)
    case None => None
  }

  function ScaleGrid(factor: real, g: Grid): (r: Grid)
    ensures r.lats == g.lats && r.lons == g.lons && |r.cells| == |g.cells|
    ensures forall i :: 0 <= i < |g.cells| ==> |r.cells[i]| == |g.cells[i]|
  {
    Grid(g.lats, g.lons,
      seq(|g.cells|, i requires 0 <= i < |g.cells| =>
        seq(|g.cells[i]|, j requires 0 <= j < |g.cells[i]| => ScaleCell(factor, g.cells[i][j]))))
  }
}
