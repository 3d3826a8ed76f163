/** What the ingest scripts write, and how a run that may stop early is
    recorded: the files written so far, in order, plus the failure that
    stopped it (an uncaught exception in the scripts). */
module Outputs {
  import opened Common
  import opened Grids

  datatype Artifact =
    | MeanFile(variable: string, grid: Grid) // `..._average.nc`: the time-mean of one variable on lat/lon
    | FlatArchive(values: seq<Cell>)         // `.npz` whose `all_values` is a 1-D array
    | CubeArchive(steps: seq<Grid>)          // `.npz` whose `all_values` is a time x lat x lon array

  /** A file written into `<output>/<yearFolder>/<region>/<fileName>`. */
  datatype Written = Written(yearFolder: int, region: string, fileName: string, artifact: Artifact)

  /** `np.load(path)['all_values'].flatten()` for an archive. */
  function LoadedValues(a: Artifact): seq<Cell>
    requires !a.MeanFile?
  {
    match a
    case FlatArchive(values) => values
    case CubeArchive(steps) => FlattenSteps(steps)
  }

  /** The files written, in order, and the failure that ended the run early, if any. */
  datatype Run<F> = Run(written: seq<Written>, failure: Option<F>)

  /** Run `a`, then — only if `a` did not fail — run `b`. */
  function Then<F>(a: Run<F>, b: Run<F>): (r: Run<F>)
    ensures a.written <= r.written <= a.written + b.written
    ensures r.failure.Some? <==> a.failure.Some? || b.failure.Some?
  {
    if a.failure.Some? then a else Run(a.written + b.written, b.failure)
  }

  function Done<F>(): Run<F>
  {
    Run([], None)
  }

  lemma ThenAssociative<F>(a: Run<F>, b: Run<F>, c: Run<F>)
    ensures Then(Then(a, b), c) == Then(a, Then(b, c))
  {
    if a.failure.None? && b.failure.None? {
      assert a.written + b.written + c.written == a.written + (b.written + c.written);
    }
  }
}
