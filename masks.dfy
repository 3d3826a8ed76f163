/** Region masks: a 0/1 field on a (latitude, longitude) grid, read from
    `<region>_mask.nc`. Before use the latitude axis is reindexed to gain a row
    at -90 and a row at 90, and cells whose mask value is 0 become missing. The
    identity region "global" is never masked. */
module RegionMasks {
  import opened Common
  import opened Grids

  datatype Mask = Mask(lats: seq<real>, lons: seq<real>, flags: seq<seq<real>>)

  /** The region that bypasses masking. */
  const GlobalRegion: string := "global"

  /** Why a region's mask could not be used (both make the scripts raise). */
  datatype MaskFailure =
    | MissingMaskFile(region: string)       // `xr.open_dataset` of an absent `<region>_mask.nc`
    | DuplicateMaskLatitude(region: string) // `reindex` refuses an index with repeated labels

  predicate WellFormed(m: Mask)
  {
    && |m.flags| == |m.lats|
    && forall i :: 0 <= i < |m.flags| ==> |m.flags[i]| == |m.lons|
  }

  predicate Distinct(xs: seq<real>)
  {
    forall a, b :: 0 <= a < b < |xs| ==> xs[a] != xs[b]
  }

  /** Position of the first occurrence of `x`. */
  function IndexOf(xs: seq<real>, x: real): (r: nat)
    requires x in xs
    ensures r < |xs| && xs[r] == x
    ensures forall k :: 0 <= k < r ==> xs[k] != x
  {
    if xs[0] == x then 0 else 1 + IndexOf(xs[1..], x)
  }

  /** The row `reindex(lat=...)` yields for one latitude label: the mask's own row
      when the label is on the mask's axis, otherwise a row filled with 0. */
  function RowFor(m: Mask, lat: real): seq<real>
    requires WellFormed(m)
  {
    if lat in m.lats then m.flags[IndexOf(m.lats, lat)] else seq(|m.lons|, _ => 0.0)
  }

  /** The mask reindexed onto [-90] + lats + [90] with fill value 0;
      `None` when the latitude axis repeats a label. */
  function PadMask(m: Mask): (r: Option<Mask>)
    requires WellFormed(m)
    ensures r.None? <==> !Distinct(m.lats)
    ensures r.Some? ==> WellFormed(r.value)
    ensures r.Some? ==> r.value.lats == [-90.0] + m.lats + [90.0] && r.value.lons == m.lons
  {
    if !Distinct(m.lats) then None
    else
      var lats := [-90.0] + m.lats + [90.0];
      Some(Mask(lats, m.lons, seq(|lats|, i requires 0 <= i < |lats| => RowFor(m, lats[i]))))
  }

  /** Padding adds exactly two rows, keeps every original row where it was
      (shifted down by one), and the two new rows are all 0 unless the mask
      already had a row at that pole. */
  lemma PadMaskRows(m: Mask)
    requires WellFormed(m) && Distinct(m.lats)
    ensures PadMask(m).Some?
    ensures |PadMask(m).value.flags| == |m.flags| + 2
    ensures forall i :: 0 <= i < |m.flags| ==> PadMask(m).value.flags[i + 1] == m.flags[i]
    ensures -90.0 !in m.lats ==> forall j :: 0 <= j < |m.lons| ==> PadMask(m).value.flags[0][j] == 0.0
    ensures 90.0 !in m.lats ==>
              var last := PadMask(m).value.flags[|m.flags| + 1]; forall j :: 0 <= j < |m.lons| ==> last[j] == 0.0
  {
    var p := PadMask(m).value;
    forall i | 0 <= i < |m.flags| ensures p.flags[i + 1] == m.flags[i] {
      assert p.lats[i + 1] == m.lats[i];
      assert IndexOf(m.lats, m.lats[i]) == i;
    }
  }

  /** The padded mask lies on the grid of `g`, so cells match by position. */
  predicate Fits(m: Mask, g: Grid)
  {
    WellFormed(m) && OnAxes(g, m.lats, m.lons)
  }

  /** `g.where(mask)`: keep a cell where the mask is non-zero, missing elsewhere. */
  function ApplyMask(m: Mask, g: Grid): (r: Grid)
    requires Fits(m, g)
    ensures OnAxes(r, g.lats, g.lons)
  {
    Grid(g.lats, g.lons,
      seq(|g.lats|, i requires 0 <= i < |g.lats| =>
        seq(|g.lons|, j requires 0 <= j < |g.lons| => if m.flags[i][j] != 0.0 then g.cells[i][j] else None)))
  }

  /** Masking invariant: a cell outside the region becomes the missing marker
      (never a literal zero), and a cell inside keeps its value. */
  lemma ApplyMaskCell(m: Mask, g: Grid, i: nat, j: nat)
    requires Fits(m, g) && i < |g.lats| && j < |g.lons|
    ensures m.flags[i][j] == 0.0 ==> ApplyMask(m, g).cells[i][j] == None
    ensures m.flags[i][j] != 0.0 ==> ApplyMask(m, g).cells[i][j] == g.cells[i][j]
  {
  }

  /** The padded mask for a region: `None` for "global", which is never masked. */
  function RegionMask(region: string, masks: map<string, Mask>): (r: Result<Option<Mask>, MaskFailure>)
    requires region in masks ==> WellFormed(masks[region])
    ensures region == GlobalRegion ==> r == Ok(None)
    ensures region != GlobalRegion && region !in masks ==> r == Err(MissingMaskFile(region))
    ensures region != GlobalRegion && region in masks ==>
              (r.Ok? <==> Distinct(masks[region].lats)) &&
              (r.Ok? ==> r.value == PadMask(masks[region]))
  {
    if region == GlobalRegion then Ok(None)
    else if region !in masks then Err(MissingMaskFile(region))
    else match PadMask(masks[region])
      case None => Err(DuplicateMaskLatitude(region))
      case Some(p) => Ok(Some(p))
  }

  /** The mask file of `region`, if there is one, is well formed, and once padded it
      lies on the grid (lats, lons). */
  predicate MaskFits(masks: map<string, Mask>, region: string, lats: seq<real>, lons: seq<real>)
  {
    region in masks ==>
      WellFormed(masks[region]) &&
      (Distinct(masks[region].lats) ==> [-90.0] + masks[region].lats + [90.0] == lats && masks[region].lons == lons)
  }

  /** The mask of every region of a run fits the grid; mask files of other regions
      are never opened, so they may be anything. */
  predicate MasksFit(masks: map<string, Mask>, regions: seq<string>, lats: seq<real>, lons: seq<real>)
  {
    forall i :: 0 <= i < |regions| ==> MaskFits(masks, regions[i], lats, lons)
  }

  /** A padded mask, if any, lies on the grid (lats, lons). */
  predicate MaskOptionFits(mask: Option<Mask>, lats: seq<real>, lons: seq<real>)
  {
    mask.Some? ==> WellFormed(mask.value) && mask.value.lats == lats && mask.value.lons == lons
  }

  /** Opening a region's mask for data on (lats, lons), as both ingest scripts
      do: "global" opens nothing, and an opened mask lies on the data grid. */
  function OpenMask(region: string, masks: map<string, Mask>, lats: seq<real>, lons: seq<real>): (r: Result<Option<Mask>, MaskFailure>)
    requires MaskFits(masks, region, lats, lons)
    ensures r.Ok? ==> MaskOptionFits(r.value, lats, lons)
    ensures region == GlobalRegion ==> r == Ok(None)
  {
    RegionMask(region, masks)
  }

  /** Mask every step of a cube; no mask (region "global") leaves it unchanged. */
  function MaskSteps(mask: Option<Mask>, steps: seq<Grid>, lats: seq<real>, lons: seq<real>): (r: seq<Grid>)
    requires AllOnAxes(steps, lats, lons)
    requires MaskOptionFits(mask, lats, lons)
    ensures AllOnAxes(r, lats, lons) && |r| == |steps|
    ensures mask.None? ==> r == steps
  {
    match mask
    case None => steps
    case Some(m) => seq(|steps|, k requires 0 <= k < |steps| => ApplyMask(m, steps[k]))
  }

  /** After masking, every cell whose mask value is 0 is missing in every step,
      and every other cell is unchanged. */
  lemma MaskStepsCell(m: Mask, steps: seq<Grid>, lats: seq<real>, lons: seq<real>, k: nat, i: nat, j: nat)
    requires AllOnAxes(steps, lats, lons)
    requires WellFormed(m) && m.lats == lats && m.lons == lons
    requires k < |steps| && i < |lats| && j < |lons|
    ensures MaskSteps(Some(m), steps, lats, lons)[k].cells[i][j] ==
              if m.flags[i][j] == 0.0 then None else steps[k].cells[i][j]
  {
    ApplyMaskCell(m, steps[k], i, j);
  }
}
