/** The GISS ingest (`process_nc_files` in saveGISSfiles.py): one model file
    per month, named after the month's abbreviation and the year. For every
    year and region the region's mask is opened once, then each month whose
    file exists is masked and written as a time-mean and an archive of the
    masked cube. */
module GissIngest {
  import opened Common
  import opened Grids
  import opened RegionMasks
  import opened Naming
  import opened Outputs

  /** The chosen variable of one monthly model file: time x lat x lon. */
  datatype GissFile = GissFile(steps: seq<Grid>)

  /** The only exception the run raises: a region's mask cannot be opened or padded. */
  datatype Failure = MaskUnavailable(reason: MaskFailure)

  const InputSuffix: string := ".aijh12iWISO_20th_MERRA2_ANL.nc"

  /** `f'{month}{year}.aijh12iWISO_20th_MERRA2_ANL.nc'`. */
  function InputFileName(month: string, year: int): string
  {
    month + Decimal(year) + InputSuffix
  }

  /** The variable name used in the outputs: `prec` becomes `precipitation`. */
  function OutputVariable(chosen: string): string
  {
    if chosen == "prec" then "precipitation" else chosen
  }

  /** Only `prec` is renamed, so `prec` and `precipitation` share their output
      names and every other variable keeps its own. */
  lemma OutputVariableRenamesPrecOnly(a: string, b: string)
    ensures OutputVariable(a) == "precipitation" <==> a == "prec" || a == "precipitation"
    ensures OutputVariable(a) == OutputVariable(b) <==>
              a == b || (a == "prec" && b == "precipitation") || (a == "precipitation" && b == "prec")
  {
  }

  /** The files of one year folder, by name; a missing folder is an empty map. */
  type Folder = map<string, GissFile>

  /** Every file of the folder lies on the grid (lats, lons). */
  predicate FolderOnGrid(folder: Folder, lats: seq<real>, lons: seq<real>)
  {
    forall name :: name in folder ==> AllOnAxes(folder[name].steps, lats, lons)
  }

  /** What month `MonthAbbrevs[m]` writes: nothing when its file is absent,
      otherwise the mean and then the archive of the masked cube. */
  function MonthWrites(year: int, region: string, variable: string, mask: Option<Mask>, folder: Folder, m: nat,
                       lats: seq<real>, lons: seq<real>): seq<Written>
    requires m < 12 && FolderOnGrid(folder, lats, lons) && MaskOptionFits(mask, lats, lons)
  {
    var name := InputFileName(MonthAbbrevs[m], year);
    if name !in folder then []
    else
      var steps := MaskSteps(mask, folder[name].steps, lats, lons);
      var outVar := OutputVariable(variable);
      var month := TwoDigits(m + 1);
      [Written(year, region, MeanFileName(year, month, region, outVar), MeanFile(outVar, MeanGrid(steps, lats, lons))),
       Written(year, region, ArchiveFileName(year, month, region, outVar), CubeArchive(steps))]
  }

  /** The first n months of one region, January first. */
  function MonthsWrites(year: int, region: string, variable: string, mask: Option<Mask>, folder: Folder, n: nat,
                        lats: seq<real>, lons: seq<real>): seq<Written>
    requires n <= 12 && FolderOnGrid(folder, lats, lons) && MaskOptionFits(mask, lats, lons)
  {
    if n == 0 then []
    else MonthsWrites(year, region, variable, mask, folder, n - 1, lats, lons) +
         MonthWrites(year, region, variable, mask, folder, n - 1, lats, lons)
  }

  /** One (year, region): the mask first, then the twelve months. */
  function RegionRun(year: int, region: string, variable: string, masks: map<string, Mask>, folder: Folder,
                     lats: seq<real>, lons: seq<real>): Run<Failure>
    requires FolderOnGrid(folder, lats, lons) && MaskFits(masks, region, lats, lons)
  {
    match OpenMask(region, masks, lats, lons)
    case Err(e) => Run([], Some(MaskUnavailable(e)))
    case Ok(mask) => Run(MonthsWrites(year, region, variable, mask, folder, 12, lats, lons), None)
  }

  function RegionsRun(year: int, regions: seq<string>, variable: string, masks: map<string, Mask>, folder: Folder,
                      lats: seq<real>, lons: seq<real>): Run<Failure>
    requires FolderOnGrid(folder, lats, lons) && MasksFit(masks, regions, lats, lons)
  {
    if regions == [] then Done()
    else Then(RegionsRun(year, regions[..|regions| - 1], variable, masks, folder, lats, lons),
              RegionRun(year, regions[|regions| - 1], variable, masks, folder, lats, lons))
  }

  /** The listing of a year folder; a folder that does not exist holds no file. */
  function FolderOf(folders: map<int, Folder>, year: int): Folder
  {
    if year in folders then folders[year] else map[]
  }

  predicate FoldersOnGrid(folders: map<int, Folder>, lats: seq<real>, lons: seq<real>)
  {
    forall y :: y in folders ==> FolderOnGrid(folders[y], lats, lons)
  }

  /** `process_nc_files` over all years. */
  function YearsRun(years: seq<int>, regions: seq<string>, variable: string, masks: map<string, Mask>,
                    folders: map<int, Folder>, lats: seq<real>, lons: seq<real>): Run<Failure>
    requires FoldersOnGrid(folders, lats, lons) && MasksFit(masks, regions, lats, lons)
  {
    if years == [] then Done()
    else
      var year := years[|years| - 1];
      Then(YearsRun(years[..|years| - 1], regions, variable, masks, folders, lats, lons),
           RegionsRun(year, regions, variable, masks, FolderOf(folders, year), lats, lons))
  }

  // ---------------------------------------------------------------------
  // The loops
  // ---------------------------------------------------------------------

  /** One region of one year: open the mask once, then the month loop. */
  method ProcessRegion(year: int, region: string, variable: string, masks: map<string, Mask>, folder: Folder,
                       lats: seq<real>, lons: seq<real>) returns (run: Run<Failure>)
    requires FolderOnGrid(folder, lats, lons) && MaskFits(masks, region, lats, lons)
    ensures run == RegionRun(year, region, variable, masks, folder, lats, lons)
  {
    var resolved := OpenMask(region, masks, lats, lons);
    if resolved.Err? {
      return Run([], Some(MaskUnavailable(resolved.error)));
    }
    var written := WriteMonths(year, region, variable, resolved.value, folder, lats, lons);
    return Run(written, None);
  }

  /** The month loop of one region: each month whose file exists writes its mean,
      then its masked cube. */
  method WriteMonths(year: int, region: string, variable: string, mask: Option<Mask>, folder: Folder,
                     lats: seq<real>, lons: seq<real>) returns (written: seq<Written>)
    requires FolderOnGrid(folder, lats, lons) && MaskOptionFits(mask, lats, lons)
    ensures written == MonthsWrites(year, region, variable, mask, folder, 12, lats, lons)
  {
    var outVar := OutputVariable(variable);
    written := [];
    for m := 0 to 12
      invariant written == MonthsWrites(year, region, variable, mask, folder, m, lats, lons)
    {
      ghost var expected := MonthWrites(year, region, variable, mask, folder, m, lats, lons);
      var name := InputFileName(MonthAbbrevs[m], year);
      if name in folder {
        var steps := MaskSteps(mask, folder[name].steps, lats, lons);
        var month := TwoDigits(m + 1);
        var mean := Written(year, region, MeanFileName(year, month, region, outVar), MeanFile(outVar, MeanGrid(steps, lats, lons)));
        var archive := Written(year, region, ArchiveFileName(year, month, region, outVar), CubeArchive(steps));
        assert expected == [mean, archive];
        written := written + [mean, archive];
      } else {
        assert expected == [];
      }
    }
  }

  lemma {:induction false} RegionsRunStops(year: int, regions: seq<string>, n: nat, variable: string,
                                           masks: map<string, Mask>, folder: Folder, lats: seq<real>, lons: seq<real>)
    requires FolderOnGrid(folder, lats, lons) && MasksFit(masks, regions, lats, lons) && n <= |regions|
    requires RegionsRun(year, regions[..n], variable, masks, folder, lats, lons).failure.Some?
    ensures RegionsRun(year, regions, variable, masks, folder, lats, lons) ==
              RegionsRun(year, regions[..n], variable, masks, folder, lats, lons)
    decreases |regions| - n
  {
    if n < |regions| {
      assert regions[..n + 1][..n] == regions[..n];
      RegionsRunStops(year, regions, n + 1, variable, masks, folder, lats, lons);
    } else {
      assert regions[..n] == regions;
    }
  }

  lemma {:induction false} YearsRunStops(years: seq<int>, n: nat, regions: seq<string>, variable: string,
                                         masks: map<string, Mask>, folders: map<int, Folder>, lats: seq<real>, lons: seq<real>)
    requires FoldersOnGrid(folders, lats, lons) && MasksFit(masks, regions, lats, lons) && n <= |years|
    requires YearsRun(years[..n], regions, variable, masks, folders, lats, lons).failure.Some?
    ensures YearsRun(years, regions, variable, masks, folders, lats, lons) ==
              YearsRun(years[..n], regions, variable, masks, folders, lats, lons)
    decreases |years| - n
  {
    if n < |years| {
      assert years[..n + 1][..n] == years[..n];
      YearsRunStops(years, n + 1, regions, variable, masks, folders, lats, lons);
    } else {
      assert years[..n] == years;
    }
  }

  /** The region loop of one year. */
  method ProcessYear(year: int, regions: seq<string>, variable: string, masks: map<string, Mask>, folder: Folder,
                     lats: seq<real>, lons: seq<real>) returns (run: Run<Failure>)
    requires FolderOnGrid(folder, lats, lons) && MasksFit(masks, regions, lats, lons)
    ensures run == RegionsRun(year, regions, variable, masks, folder, lats, lons)
  {
    run := Done();
    for n := 0 to |regions|
      invariant run == RegionsRun(year, regions[..n], variable, masks, folder, lats, lons)
      invariant run.failure.None?
    {
      assert regions[..n + 1][..n] == regions[..n];
      assert regions[..n + 1][n] == regions[n];
      var regionRun := ProcessRegion(year, regions[n], variable, masks, folder, lats, lons);
      run := Then(run, regionRun);
      if run.failure.Some? {
        RegionsRunStops(year, regions, n + 1, variable, masks, folder, lats, lons);
        return;
      }
    }
    assert regions[..|regions|] == regions;
  }

  /** The year loop. */
  method ProcessYears(years: seq<int>, regions: seq<string>, variable: string, masks: map<string, Mask>,
                      folders: map<int, Folder>, lats: seq<real>, lons: seq<real>) returns (run: Run<Failure>)
    requires FoldersOnGrid(folders, lats, lons) && MasksFit(masks, regions, lats, lons)
    ensures run == YearsRun(years, regions, variable, masks, folders, lats, lons)
  {
    run := Done();
    for n := 0 to |years|
      invariant run == YearsRun(years[..n], regions, variable, masks, folders, lats, lons)
      invariant run.failure.None?
    {
      var year := years[n];
      assert years[..n + 1][..n] == years[..n];
      assert years[..n + 1][n] == year;
      var yearRun := ProcessYear(year, regions, variable, masks, FolderOf(folders, year), lats, lons);
      run := Then(run, yearRun);
      if run.failure.Some? {
        YearsRunStops(years, n + 1, regions, variable, masks, folders, lats, lons);
        return;
      }
    }
    assert years[..|years|] == years;
  }

  // ---------------------------------------------------------------------
  // Properties
  // ---------------------------------------------------------------------

  /** How many of the first n months have their file in the folder. */
  function PresentMonths(year: int, folder: Folder, n: nat): (r: nat)
    requires n <= 12
    ensures r <= n
  {
    if n == 0 then 0
    else PresentMonths(year, folder, n - 1) + (if InputFileName(MonthAbbrevs[n - 1], year) in folder then 1 else 0)
  }

  /** Each month with a file writes two outputs and each month without one
      writes none. */
  lemma {:induction false} MonthsWritesCount(year: int, region: string, variable: string, mask: Option<Mask>, folder: Folder,
                                             n: nat, lats: seq<real>, lons: seq<real>)
    requires n <= 12 && FolderOnGrid(folder, lats, lons) && MaskOptionFits(mask, lats, lons)
    ensures |MonthsWrites(year, region, variable, mask, folder, n, lats, lons)| == 2 * PresentMonths(year, folder, n)
  {
    if n > 0 {
      MonthsWritesCount(year, region, variable, mask, folder, n - 1, lats, lons);
    }
  }

  /** A month whose file exists writes its time-mean, then the masked cube,
      both named with the month's number zero-padded; the archive holds
      time steps x cells values. */
  lemma MonthWritesPresent(year: int, region: string, variable: string, mask: Option<Mask>, folder: Folder, m: nat,
                           lats: seq<real>, lons: seq<real>)
    requires m < 12 && FolderOnGrid(folder, lats, lons) && MaskOptionFits(mask, lats, lons)
    requires InputFileName(MonthAbbrevs[m], year) in folder
    ensures var w := MonthWrites(year, region, variable, mask, folder, m, lats, lons);
            var steps := folder[InputFileName(MonthAbbrevs[m], year)].steps;
            && |w| == 2
            && w[0].artifact.MeanFile? && w[1].artifact.CubeArchive?
            && w[0].fileName == MeanFileName(year, TwoDigits(m + 1), region, OutputVariable(variable))
            && w[1].fileName == ArchiveFileName(year, TwoDigits(m + 1), region, OutputVariable(variable))
            && w[0].artifact == MeanFile(OutputVariable(variable), MeanGrid(MaskSteps(mask, steps, lats, lons), lats, lons))
            && w[1].artifact == CubeArchive(MaskSteps(mask, steps, lats, lons))
            && |w[1].artifact.steps| == |steps|
            && |LoadedValues(w[1].artifact)| == |steps| * (|lats| * |lons|)
  {
    var steps := folder[InputFileName(MonthAbbrevs[m], year)].steps;
    FlattenStepsShape(MaskSteps(mask, steps, lats, lons), lats, lons);
  }

  /** A month's mean is missing exactly where its masked cube is missing at
      every time step. */
  lemma MonthMeanMissing(year: int, region: string, variable: string, mask: Option<Mask>, folder: Folder, m: nat,
                         lats: seq<real>, lons: seq<real>, i: nat, j: nat)
    requires m < 12 && FolderOnGrid(folder, lats, lons) && MaskOptionFits(mask, lats, lons)
    requires InputFileName(MonthAbbrevs[m], year) in folder
    requires i < |lats| && j < |lons|
    ensures var w := MonthWrites(year, region, variable, mask, folder, m, lats, lons);
            |w| == 2 && w[0].artifact.MeanFile? && w[1].artifact.CubeArchive? &&
            (w[0].artifact.grid.cells[i][j].None? <==> MissingThroughout(w[1].artifact.steps, i, j))
  {
    var steps := MaskSteps(mask, folder[InputFileName(MonthAbbrevs[m], year)].steps, lats, lons);
    MeanGridMissing(steps, lats, lons, i, j);
  }

  /** Outside the region's mask every written value is missing: in each
      archived cube at every time step, and in each mean. */
  lemma {:induction false} MonthsWritesMasked(year: int, region: string, variable: string, m: Mask, folder: Folder, n: nat,
                                              lats: seq<real>, lons: seq<real>, i: nat, j: nat)
    requires n <= 12 && FolderOnGrid(folder, lats, lons) && MaskOptionFits(Some(m), lats, lons)
    requires i < |lats| && j < |lons| && m.flags[i][j] == 0.0
    ensures forall w :: w in MonthsWrites(year, region, variable, Some(m), folder, n, lats, lons) ==>
              (w.artifact.CubeArchive? ==> MissingThroughout(w.artifact.steps, i, j)) &&
              (w.artifact.MeanFile? ==> |w.artifact.grid.cells| > i && |w.artifact.grid.cells[i]| > j &&
                                        w.artifact.grid.cells[i][j].None?)
  {
    if n > 0 {
      MonthsWritesMasked(year, region, variable, m, folder, n - 1, lats, lons, i, j);
      var name := InputFileName(MonthAbbrevs[n - 1], year);
      if name in folder {
        var raw := folder[name].steps;
        var steps := MaskSteps(Some(m), raw, lats, lons);
        forall k | 0 <= k < |steps| ensures i < |steps[k].cells| && j < |steps[k].cells[i]| && steps[k].cells[i][j].None? {
          MaskStepsCell(m, raw, lats, lons, k, i, j);
        }
        MeanGridMissing(steps, lats, lons, i, j);
      }
    }
  }

  /** The region's mask is opened before any month is looked at: a missing
      mask file ends the run even for a year folder without files. */
  lemma MaskOpenedOncePerRegion(year: int, region: string, variable: string, masks: map<string, Mask>,
                                lats: seq<real>, lons: seq<real>)
    requires MaskFits(masks, region, lats, lons) && region != GlobalRegion && region !in masks
    ensures RegionRun(year, region, variable, masks, map[], lats, lons) ==
              Run([], Some(MaskUnavailable(MissingMaskFile(region))))
  {
  }

  /** Every output of a run lands in the folder of a listed year and region. */
  lemma {:induction false} YearsRunPlaced(years: seq<int>, regions: seq<string>, variable: string, masks: map<string, Mask>,
                                          folders: map<int, Folder>, lats: seq<real>, lons: seq<real>)
    requires FoldersOnGrid(folders, lats, lons) && MasksFit(masks, regions, lats, lons)
    ensures forall w :: w in YearsRun(years, regions, variable, masks, folders, lats, lons).written ==>
              w.yearFolder in years && w.region in regions
  {
    if years != [] {
      var init := years[..|years| - 1];
      var year := years[|years| - 1];
      YearsRunPlaced(init, regions, variable, masks, folders, lats, lons);
      RegionsRunPlaced(year, regions, variable, masks, FolderOf(folders, year), lats, lons);
      assert forall y :: y in init ==> y in years;
    }
  }

  lemma {:induction false} RegionsRunPlaced(year: int, regions: seq<string>, variable: string, masks: map<string, Mask>,
                                            folder: Folder, lats: seq<real>, lons: seq<real>)
    requires FolderOnGrid(folder, lats, lons) && MasksFit(masks, regions, lats, lons)
    ensures forall w :: w in RegionsRun(year, regions, variable, masks, folder, lats, lons).written ==>
              w.yearFolder == year && w.region in regions
  {
    if regions != [] {
      var init := regions[..|regions| - 1];
      var region := regions[|regions| - 1];
      RegionsRunPlaced(year, init, variable, masks, folder, lats, lons);
      assert forall r :: r in init ==> r in regions;
      match OpenMask(region, masks, lats, lons)
      case Err(_) =>
      case Ok(mask) => MonthsWritesPlaced(year, region, variable, mask, folder, 12, lats, lons);
    }
  }

  lemma {:induction false} MonthsWritesPlaced(year: int, region: string, variable: string, mask: Option<Mask>, folder: Folder,
                                              n: nat, lats: seq<real>, lons: seq<real>)
    requires n <= 12 && FolderOnGrid(folder, lats, lons) && MaskOptionFits(mask, lats, lons)
    ensures forall w :: w in MonthsWrites(year, region, variable, mask, folder, n, lats, lons) ==>
              w.yearFolder == year && w.region == region
  {
    if n > 0 {
      MonthsWritesPlaced(year, region, variable, mask, folder, n - 1, lats, lons);
    }
  }
}
