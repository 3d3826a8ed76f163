# Extreme-precipitation preprocessing and event analysis, modelled in Dafny

This project models the core of the NASA CCRI extreme-precipitation toolkit.
The toolkit compares the GISS ModelE climate model with IMERG satellite
precipitation, and it also finds precipitation events in station records.
The model covers four pieces of Python:

- **IMERG ingest** (`saveIMERGfiles.py`, `process_nc_files`). For each year
  folder, the `.nc4` files are grouped by the `YYYYMMDD` token in their names.
  For each region and each month group, every file goes through the same steps:
  - a cadence check on its first time stamp;
  - optional regridding;
  - the region mask;
  - unit conversion.

  The month then writes two outputs: a flat `.npz` archive of all values and a
  time-mean `_average.nc` grid. The month, region and year runs use the corrected
  choice of grid (`SelectSteps`). The `UnboundLocalError` the source raises when
  a regrid file is set with regridding off is modelled for a single file only,
  by `TransformFileAsWritten` (see Findings).
- **GISS ingest** (`saveGISSfiles.py`, `process_nc_files`). For each year and
  region, the region mask is opened once. Then each of the twelve monthly
  `<MON><year>.aijh12iWISO_20th_MERRA2_ANL.nc` files that exists is masked and
  written as a mean grid and a cube archive. `prec` is renamed to
  `precipitation`.
- **Comparison planning** (`IMERG_GISS_hist_stats.py`, `createCompareViz` and
  `season_mode`). This stage decides which monthly archives each report pools,
  and in what order. The modes are single-year, years, month and season; the
  season mode has winter, spring, summer, fall, custom and all. It loads each
  GISS/IMERG pair, concatenates the values and drops the missing ones. It
  rejects unknown modes, unknown seasons and invalid custom month lists.
- **Event analysis** (`examine_chosen_precipitation_events.py`,
  `analyze_precipitation_data`). Readings are cut into events at every reading of
  at most 0.89. Events are grouped, filtered to those with positive duration and
  positive total, then ranked and scored. The events are left-merged back onto
  the readings, filtered to the chosen days, and reduced to one row per event.

Modules:

| file | module | role |
|---|---|---|
| `common.dfy` | `Common` | `Option`, `Result`, list concatenation (`np.concatenate`) |
| `grids.dfy` | `Grids` | (lat, lon) grids of optional values, row-major flattening, missing-skipping mean |
| `masks.dfy` | `RegionMasks` | mask padding at ±90° (`reindex`) and masking with `where` |
| `naming.dfy` | `Naming` | decimal and two-digit formatting, month tables, output file names |
| `outputs.dfy` | `Outputs` | written artifacts and runs that stop at the first raised error |
| `imerg.dfy` | `ImergIngest` | IMERG ingest |
| `giss.dfy` | `GissIngest` | GISS ingest |
| `compare.dfy` | `CompareStage` | comparison planning and pooling |
| `events.dfy` | `PrecipEvents` | event segmentation, ranking, merge and day filter |

How the model represents the Python:

- A Python exception becomes an explicit failure value. A run is the list of
  files written so far plus an optional failure, and nothing runs after a
  failure (`Outputs.Then`).
- The loops that drive the work are methods. Each one is proved equal to a
  specification function, and the properties are proved about those functions.
- Behaviours a reader might not expect, which the model follows as written:
  - A missing mask file raises in both ingest scripts (`xr.open_dataset`). It
    ends the whole run, rather than skipping only that region.
  - An eight-digit token that is not a valid date also ends the run
    (`pd.to_datetime` raises). Only names with no eight-digit token are skipped.
  - The IMERG cadence check reads only a file's first time stamp. It keeps or
    drops the whole file, not single time slices.
  - A file with no time step raises when resampling is on.
  - An IMERG month whose files are all dropped by the cadence check raises at
    `np.concatenate`; it is not skipped.

## Model

| member | source | states |
|---|---|---|
| Common.ConcatAppend | probability-density-functions/IMERG_GISS_hist_stats.py:149-150 | concatenating a list built from two parts equals concatenating each part and joining the results |
| Common.ConcatMembers | probability-density-functions/IMERG_GISS_hist_stats.py:149-150 | a value is in the concatenation iff it is in one of the concatenated arrays |
| Common.ConcatUniformLength | probability-density-functions/saveIMERGfiles.py:191-195 | concatenating equally sized arrays gives count × width values |
| Common.ConcatUniformAt | probability-density-functions/saveIMERGfiles.py:191-195 | element j of array i sits at i × width + j in the concatenation |
| Grids.FlattenShape | probability-density-functions/saveIMERGfiles.py:191 | `flatten` of a (lat, lon) grid is row-major: cell (i, j) is at i × \|lon\| + j, length \|lat\| × \|lon\| |
| Grids.FlattenStepsShape | probability-density-functions/saveIMERGfiles.py:191 | flattening a time × lat × lon cube gives steps × lat × lon values |
| Grids.FlattenStepsAt | probability-density-functions/saveIMERGfiles.py:191 | cell (i, j) of step k is at k × (\|lat\| × \|lon\|) + i × \|lon\| + j |
| Grids.FlattenStepsAppend | probability-density-functions/saveIMERGfiles.py:191-195 | flattening two stacked cubes equals flattening each and concatenating |
| Grids.Flatten | probability-density-functions/saveIMERGfiles.py:191 | `flatten` of one grid; its layout is stated by Grids.FlattenShape |
| Grids.FlattenSteps | probability-density-functions/saveIMERGfiles.py:191-195 | flattening each step and concatenating; stated by Grids.FlattenStepsShape, Grids.FlattenStepsAt and Grids.FlattenStepsAppend |
| Grids.Present | probability-density-functions/IMERG_GISS_hist_stats.py:151-152 | dropping NaN; stated by Grids.PresentMembers, Grids.PresentAppend, Grids.PresentEmpty and Grids.PresentLength |
| Grids.PresentMembers | probability-density-functions/IMERG_GISS_hist_stats.py:151-152 | dropping NaN keeps exactly the values that were present |
| Grids.PresentAppend | probability-density-functions/IMERG_GISS_hist_stats.py:151-152 | dropping NaN commutes with concatenation |
| Grids.PresentEmpty | probability-density-functions/IMERG_GISS_hist_stats.py:151-152 | nothing is left iff every value was missing |
| Grids.PresentLength | probability-density-functions/IMERG_GISS_hist_stats.py:151-152 | dropping NaN never lengthens, and keeps the length iff nothing was missing |
| Grids.MeanOf | probability-density-functions/saveIMERGfiles.py:200 | the time mean of a cell is missing iff the cell is missing in every step |
| Grids.MeanWithin | probability-density-functions/saveIMERGfiles.py:200 | a present mean lies between any bounds of the present values |
| Grids.MeanGrid | probability-density-functions/saveIMERGfiles.py:200 | the time mean keeps the lat/lon axes |
| Grids.MeanGridMissing | probability-density-functions/saveIMERGfiles.py:200 | a mean cell is missing iff that cell is missing throughout the cube |
| Grids.MeanGridWithin | probability-density-functions/saveIMERGfiles.py:200 | each mean cell lies within the bounds of its column's present values |
| Grids.ScaleGrid | probability-density-functions/saveIMERGfiles.py:188-190 | unit conversion keeps the axes and the shape of the grid |
| RegionMasks.IndexOf | probability-density-functions/saveIMERGfiles.py:184 | label lookup finds the first position that holds the label |
| RegionMasks.PadMask | probability-density-functions/saveIMERGfiles.py:184 | reindexing fails iff the mask's latitudes repeat; otherwise the axis becomes -90, the old latitudes, 90, with longitudes unchanged |
| RegionMasks.PadMaskRows | probability-density-functions/saveIMERGfiles.py:184 | padding adds two rows and shifts the old rows by one; a pole row is 0 unless the mask already has that latitude |
| RegionMasks.ApplyMask | probability-density-functions/saveIMERGfiles.py:185 | masking keeps the data grid's axes |
| RegionMasks.ApplyMaskCell | probability-density-functions/saveIMERGfiles.py:185 | a cell with mask 0 becomes missing; any other cell is unchanged |
| RegionMasks.RegionMask | probability-density-functions/saveIMERGfiles.py:180-184 | "global" uses no mask; a missing mask file is an error; otherwise the padded mask, which fails iff its latitudes repeat |
| RegionMasks.OpenMask | probability-density-functions/saveIMERGfiles.py:180-184 | "global" opens no mask, and an opened mask fits the data grid; both ingest scripts open masks this way |
| RegionMasks.MaskSteps | probability-density-functions/saveGISSfiles.py:124-126 | masking a cube keeps its steps and axes, and no mask leaves it unchanged |
| RegionMasks.MaskStepsCell | probability-density-functions/saveGISSfiles.py:124-126 | in every step, cells with mask 0 become missing and the others are unchanged |
| Naming.NatDecimal | probability-density-functions/saveIMERGfiles.py:196 | a year is printed as one or more decimal digits |
| Naming.ParseNatDecimal | probability-density-functions/saveIMERGfiles.py:196 | reading the printed digits back gives the number |
| Naming.TwoDigits | probability-density-functions/saveIMERGfiles.py:196 | `{month:02d}`; stated by Naming.TwoDigitsRoundTrip |
| Naming.TwoDigitsRoundTrip | probability-density-functions/saveIMERGfiles.py:196 | `{month:02d}` gives two digits that read back as the month |
| Naming.FourDigits | probability-density-functions/saveIMERGfiles.py:126 | a `%Y` year between 1000 and 9999 has four digits |
| Naming.DecimalInjective | probability-density-functions/saveIMERGfiles.py:196 | two different years never print the same way |
| Naming.MonthStringsFormatted | probability-density-functions/IMERG_GISS_hist_stats.py:133 | `month_strings` is the twelve two-digit month numbers in order |
| Naming.MonthTables | probability-density-functions/IMERG_GISS_hist_stats.py:106-133 | `month_dict` maps the i-th abbreviation to the i-th entry of `month_strings`, which is month i+1 in two digits |
| Naming.MonthDictKeys | probability-density-functions/IMERG_GISS_hist_stats.py:106-119 | the keys of `month_dict` are exactly the twelve abbreviations |
| Naming.ArchiveFileName | probability-density-functions/saveIMERGfiles.py:196 | the `.npz` name `{year}_{month}_{region}_{variable}`; stated by Naming.ArchiveFileNameInjective and Naming.ArchiveFileNameSplit |
| Naming.MeanFileName | probability-density-functions/saveIMERGfiles.py:201 | the `_average.nc` name; stated by Naming.ArchiveAndMeanNamesDiffer |
| Naming.ArchiveFileNameInjective | probability-density-functions/saveIMERGfiles.py:196 | two different (year, month) pairs never share an archive name, so no month overwrites another |
| Naming.ArchiveFileNameSplit | probability-density-functions/saveIMERGfiles.py:196 | equal archive names have equal years and equal tails |
| Naming.ArchiveAndMeanNamesDiffer | probability-density-functions/saveIMERGfiles.py:196-201 | the archive and the mean of a month never share a file name |
| Outputs.Then | probability-density-functions/saveIMERGfiles.py:132-203 | a failed run is not extended; otherwise the second run's files follow the first's, and the result fails iff either part fails |
| Outputs.ThenAssociative | probability-density-functions/saveIMERGfiles.py:132-203 | running steps one after another, stopping at the first error, does not depend on how the steps are grouped |
| ImergIngest.FindDigitRun | probability-density-functions/saveIMERGfiles.py:124 | `re.search(r"\d{8}")` finds the leftmost eight-digit run, or reports that none exists |
| ImergIngest.FindDigitRunLeftmost | probability-density-functions/saveIMERGfiles.py:124 | the search returns the first position where eight digits start |
| ImergIngest.ExtractYearMonth | probability-density-functions/saveIMERGfiles.py:123-128 | a parsed date has a month from 1 to 12 and a year that pandas timestamps can hold |
| ImergIngest.ExtractYearMonthNoDate | probability-density-functions/saveIMERGfiles.py:124-128 | a name yields no date iff it holds no eight-digit run |
| ImergIngest.ExtractYearMonthOfDate | probability-density-functions/saveIMERGfiles.py:123-127 | a name with a valid `YYYYMMDD` date after a digit-free prefix yields that year and month |
| ImergIngest.DateDigitsRead | probability-density-functions/saveIMERGfiles.py:126 | the `%Y%m%d` digits of a valid date read back as its year, month and day |
| ImergIngest.DateAfterPrefix | probability-density-functions/saveIMERGfiles.py:124 | a date after a prefix that holds no digit run and does not end in a digit is the first match |
| ImergIngest.KeyOf | probability-density-functions/saveIMERGfiles.py:144-146 | the month key of one listed file, or why it has none; stated by ImergIngest.BucketMembers, ImergIngest.FirstBadDateSpec, ImergIngest.SkipEntry and ImergIngest.FileEntry |
| ImergIngest.KeyOrder | probability-density-functions/saveIMERGfiles.py:142-153 | the dictionary's months in insertion order; stated by ImergIngest.KeyOrderBuckets, ImergIngest.GroupStep and ImergIngest.GroupByMonth |
| ImergIngest.Bucket | probability-density-functions/saveIMERGfiles.py:143-147 | a month's file list holds only listed files dated in that month |
| ImergIngest.FirstBadDateSpec | probability-density-functions/saveIMERGfiles.py:143-147 | the first unparsable date is found, and every earlier name parses; there is none iff every name parses |
| ImergIngest.FirstBadDateExtend | probability-density-functions/saveIMERGfiles.py:143-147 | files listed after the first bad date do not change which error is raised |
| ImergIngest.BucketMembers | probability-density-functions/saveIMERGfiles.py:144-147 | a file is in a month's list iff it is listed, is `.nc4` and is dated in that month |
| ImergIngest.BucketAppend | probability-density-functions/saveIMERGfiles.py:143-147 | each month's list keeps the directory listing order |
| ImergIngest.KeyOrderBuckets | probability-density-functions/saveIMERGfiles.py:147-153 | a month is iterated iff its list is non-empty, and no month is iterated twice |
| ImergIngest.GroupStep | probability-density-functions/saveIMERGfiles.py:143-147 | one more listed file is the first bad date if it does not parse, and adds its month to the key order only if that month is new |
| ImergIngest.SkipEntry | probability-density-functions/saveIMERGfiles.py:144-146 | a file that is not `.nc4` or has no date leaves every month's list unchanged |
| ImergIngest.FileEntry | probability-density-functions/saveIMERGfiles.py:147 | `setdefault(...).append` adds the file to the end of its month's list and nowhere else |
| ImergIngest.FileInto | probability-density-functions/saveIMERGfiles.py:147 | the dictionary's keys, in insertion order, follow the first appearance of each month |
| ImergIngest.GroupByMonth | probability-density-functions/saveIMERGfiles.py:142-147 | the first unparsable date raises, naming that file; otherwise the months come in first-appearance order, each with its own list |
| ImergIngest.OnCadence | probability-density-functions/saveIMERGfiles.py:168 | the cadence test `minute == 0 and hour % rate == 0`; stated by ImergIngest.OnCadenceIsMultiple, ImergIngest.OnCadenceMultiple and ImergIngest.SixHourlyCadence |
| ImergIngest.CadenceCheck | probability-density-functions/saveIMERGfiles.py:159-169 | without resampling every file is kept; with it, a file with no time step raises, and otherwise the file is kept iff its first stamp has minute 0 and an hour that is a multiple of the rate |
| ImergIngest.OnCadenceMultiple | probability-density-functions/saveIMERGfiles.py:168 | a whole hour that is a multiple of the rate is on the cadence |
| ImergIngest.OnCadenceIsMultiple | probability-density-functions/saveIMERGfiles.py:168 | a stamp on the cadence is a whole hour that is a multiple of the rate |
| ImergIngest.SixHourlyCadence | probability-density-functions/saveIMERGfiles.py:168 | with rate 6, exactly the stamps at 00, 06, 12 and 18 o'clock sharp are kept |
| ImergIngest.CadenceReadsFirstStampOnly | probability-density-functions/saveIMERGfiles.py:161-168 | two files with the same first stamp get the same verdict |
| ImergIngest.SelectSteps | probability-density-functions/saveIMERGfiles.py:170-178 | the corrected choice between regridded and native cube; stated by ImergIngest.RegridFileWithoutRegridding |
| ImergIngest.SelectStepsAsWritten | probability-density-functions/saveIMERGfiles.py:139-178 | choosing the regridded cube raises iff a regrid file is set while regridding is off |
| ImergIngest.ConvertUnits | probability-density-functions/saveIMERGfiles.py:188-190 | conversion keeps the number of steps, and a factor of 1 changes nothing |
| ImergIngest.ConvertUnitsCell | probability-density-functions/saveIMERGfiles.py:188-190 | each present value is multiplied by the factor, and missing values stay missing |
| ImergIngest.Prepared | probability-density-functions/saveIMERGfiles.py:180-190 | masking and conversion keep the grid and the number of steps |
| ImergIngest.TransformFile | probability-density-functions/saveIMERGfiles.py:158-190 | a kept file's prepared cube lies on the data grid |
| ImergIngest.TransformFileAsWritten | probability-density-functions/saveIMERGfiles.py:139-190 | behaves exactly like the corrected transform except when a regrid file is set without regridding |
| ImergIngest.RegridFileWithoutRegridding | probability-density-functions/saveIMERGfiles.py:139-178 | as written, a regrid file with regridding off raises; corrected, the native cube is converted |
| ImergIngest.KeptCubes | probability-density-functions/saveIMERGfiles.py:156-192 | every collected cube lies on the data grid |
| ImergIngest.KeptCubesFailed | probability-density-functions/saveIMERGfiles.py:156-192 | once a file raises, later files change nothing |
| ImergIngest.KeptFilesAll | probability-density-functions/saveIMERGfiles.py:159 | without resampling every file of the month is kept |
| ImergIngest.KeptCubesContents | probability-density-functions/saveIMERGfiles.py:156-192 | the month holds one prepared cube per kept file, in listing order |
| ImergIngest.KeptCubesFailures | probability-density-functions/saveIMERGfiles.py:156-192 | the corrected month loop raises only for a missing time step or an unusable mask |
| ImergIngest.FlatEachConcat | probability-density-functions/saveIMERGfiles.py:191-195 | concatenating each file's flattened values equals flattening the month's stacked cube |
| ImergIngest.PoolSteps | probability-density-functions/saveIMERGfiles.py:200 | `xr.concat(..., dim='time')`; stated by ImergIngest.PoolStepsOnAxes, ImergIngest.PoolStepsMissing and ImergIngest.FlatEachConcat |
| ImergIngest.PoolStepsOnAxes | probability-density-functions/saveIMERGfiles.py:200 | stacking the month's cubes along time keeps the grid |
| ImergIngest.PoolStepsMissing | probability-density-functions/saveIMERGfiles.py:200 | a cell missing throughout each cube is missing throughout the stack |
| ImergIngest.KeptCubesStep | probability-density-functions/saveIMERGfiles.py:156-192 | one more file extends the collected cubes by its prepared cube, skips it, or raises |
| ImergIngest.CollectCubes | probability-density-functions/saveIMERGfiles.py:154-192 | the file loop collects the kept cubes, and `all_values` is their flattened values |
| ImergIngest.MonthResult | probability-density-functions/saveIMERGfiles.py:154-203 | one month's archive and mean, or its error; stated by ImergIngest.ProcessMonth, ImergIngest.MonthArchiveLength, ImergIngest.MonthWithoutKeptFiles, ImergIngest.MonthMaskedMean and ImergIngest.MonthMaskedArchive |
| ImergIngest.ProcessMonth | probability-density-functions/saveIMERGfiles.py:154-203 | the month's computation yields the archive and mean of the specification |
| ImergIngest.MonthArchiveLength | probability-density-functions/saveIMERGfiles.py:191-198 | the archive holds kept steps × grid cells values |
| ImergIngest.MonthWithoutKeptFiles | probability-density-functions/saveIMERGfiles.py:195 | a month with no kept file raises at the concatenation |
| ImergIngest.KeptCubesMasked | probability-density-functions/saveIMERGfiles.py:185 | a cell outside the mask is missing in every collected step |
| ImergIngest.MonthMaskedMean | probability-density-functions/saveIMERGfiles.py:185-203 | the mean grid is missing at every cell outside the mask |
| ImergIngest.MonthMaskedArchive | probability-density-functions/saveIMERGfiles.py:185-198 | the archive is missing at every position of a cell outside the mask |
| ImergIngest.FlattenStepsMissing | probability-density-functions/saveIMERGfiles.py:191 | a cell missing throughout gives a missing value at each of its positions in the archive |
| ImergIngest.MonthsRun | probability-density-functions/saveIMERGfiles.py:153-203 | the month loop's run; stated by ImergIngest.MonthsRunStep, ImergIngest.MonthsRunStops and ImergIngest.MonthsRunPlaced |
| ImergIngest.RegionsRun | probability-density-functions/saveIMERGfiles.py:148-203 | the region loop's run; stated by ImergIngest.RegionsRunStops and ImergIngest.RegionsRunPlaced |
| ImergIngest.YearRun | probability-density-functions/saveIMERGfiles.py:133-203 | one year folder: grouping, then the regions; stated by ImergIngest.ProcessYear |
| ImergIngest.YearsRun | probability-density-functions/saveIMERGfiles.py:132-203 | the year loop's run; stated by ImergIngest.YearsRunStops and ImergIngest.YearsRunPlaced |
| ImergIngest.MonthsRunStep | probability-density-functions/saveIMERGfiles.py:153-203 | one more month appends that month's run |
| ImergIngest.MonthsRunStops | probability-density-functions/saveIMERGfiles.py:153-203 | after a month raises, later months write nothing |
| ImergIngest.RegionsRunStops | probability-density-functions/saveIMERGfiles.py:148-203 | after a region raises, later regions write nothing |
| ImergIngest.YearsRunStops | probability-density-functions/saveIMERGfiles.py:132-203 | after a year raises, later years write nothing |
| ImergIngest.MonthRun | probability-density-functions/saveIMERGfiles.py:194-203 | the two files of one month, or its error; stated by ImergIngest.WriteMonth and ImergIngest.MonthRunPlaced |
| ImergIngest.MonthRunPlaced | probability-density-functions/saveIMERGfiles.py:196-202 | both files of one month go into the region's folder of the year |
| ImergIngest.MonthsRunPlaced | probability-density-functions/saveIMERGfiles.py:150-203 | a region's months write only into that region's folder of that year |
| ImergIngest.RegionsRunPlaced | probability-density-functions/saveIMERGfiles.py:148-203 | every output goes into the folder of one of the requested regions |
| ImergIngest.YearsRunPlaced | probability-density-functions/saveIMERGfiles.py:132-203 | every output goes into a requested year's folder and a requested region's folder |
| ImergIngest.WriteMonth | probability-density-functions/saveIMERGfiles.py:194-203 | a month writes its archive, then its mean, or writes nothing when it raises |
| ImergIngest.WriteNextMonth | probability-density-functions/saveIMERGfiles.py:153-203 | one iteration of the month loop extends the run by that month |
| ImergIngest.ProcessRegion | probability-density-functions/saveIMERGfiles.py:153-203 | the region's month loop produces the specified run |
| ImergIngest.ProcessYear | probability-density-functions/saveIMERGfiles.py:133-203 | one year's grouping and region loop produce the specified run |
| ImergIngest.ProcessYears | probability-density-functions/saveIMERGfiles.py:132-203 | the whole year loop produces the specified run |
| GissIngest.OutputVariable | probability-density-functions/saveGISSfiles.py:89-92 | the rename of `prec`; stated by GissIngest.OutputVariableRenamesPrecOnly |
| GissIngest.InputFileName | probability-density-functions/saveGISSfiles.py:118 | the monthly GISS file name; its use is stated by GissIngest.MonthWritesPresent and CompareStage.GissArchiveIsRead |
| GissIngest.OutputVariableRenamesPrecOnly | probability-density-functions/saveGISSfiles.py:89-92 | only `prec` is renamed, to `precipitation`; distinct variables stay distinct except that pair |
| GissIngest.MonthWrites | probability-density-functions/saveGISSfiles.py:118-144 | one month's writes; stated by GissIngest.MonthWritesPresent and GissIngest.MonthMeanMissing |
| GissIngest.MonthWritesPresent | probability-density-functions/saveGISSfiles.py:118-144 | an existing month file writes its mean, then its cube, with the month's names; the mean holds the renamed variable with the time mean of the masked cube, the archive holds the masked cube, of steps × cells values |
| GissIngest.MonthMeanMissing | probability-density-functions/saveGISSfiles.py:124-139 | a mean cell is missing iff that cell is missing throughout the written cube |
| GissIngest.MonthsWrites | probability-density-functions/saveGISSfiles.py:116-145 | the month loop's writes; stated by GissIngest.MonthsWritesCount, GissIngest.MonthsWritesMasked and GissIngest.MonthsWritesPlaced |
| GissIngest.MonthsWritesCount | probability-density-functions/saveGISSfiles.py:116-145 | the month loop writes two files per month file that exists |
| GissIngest.MonthsWritesMasked | probability-density-functions/saveGISSfiles.py:124-144 | every written mean and cube is missing at each cell outside the mask |
| GissIngest.MaskOpenedOncePerRegion | probability-density-functions/saveGISSfiles.py:108-112 | a missing mask raises before any month, even with no month files |
| GissIngest.RegionRun | probability-density-functions/saveGISSfiles.py:108-145 | one region: the mask first, then the twelve months; stated by GissIngest.ProcessRegion and GissIngest.MaskOpenedOncePerRegion |
| GissIngest.WriteMonths | probability-density-functions/saveGISSfiles.py:116-145 | the month loop writes the specified files for each month whose file exists |
| GissIngest.ProcessRegion | probability-density-functions/saveGISSfiles.py:108-145 | the region's mask and month loop produce the specified run |
| GissIngest.ProcessYear | probability-density-functions/saveGISSfiles.py:102-145 | the region loop produces the specified run |
| GissIngest.ProcessYears | probability-density-functions/saveGISSfiles.py:95-145 | the year loop produces the specified run |
| GissIngest.RegionsRun | probability-density-functions/saveGISSfiles.py:102-145 | the region loop's run; stated by GissIngest.RegionsRunStops, GissIngest.RegionsRunPlaced and GissIngest.MaskOpenedOncePerRegion |
| GissIngest.YearsRun | probability-density-functions/saveGISSfiles.py:95-145 | the year loop's run; stated by GissIngest.YearsRunStops and GissIngest.YearsRunPlaced |
| GissIngest.RegionsRunStops | probability-density-functions/saveGISSfiles.py:102-145 | after a region raises, later regions write nothing |
| GissIngest.YearsRunStops | probability-density-functions/saveGISSfiles.py:95-145 | after a year raises, later years write nothing |
| GissIngest.MonthsWritesPlaced | probability-density-functions/saveGISSfiles.py:116-145 | the month loop writes only into the region's folder of that year |
| GissIngest.RegionsRunPlaced | probability-density-functions/saveGISSfiles.py:102-145 | every output goes into the folder of one of the requested regions |
| GissIngest.YearsRunPlaced | probability-density-functions/saveGISSfiles.py:95-145 | every output goes into a requested year's folder and a requested region's folder |
| CompareStage.RegionDisplayName | probability-density-functions/IMERG_GISS_hist_stats.py:153-155 | the region keeps its own name iff `region_dict` has no entry for it |
| CompareStage.MonthCode | probability-density-functions/IMERG_GISS_hist_stats.py:201 | `month_dict.get(month)` as text; stated by CompareStage.MonthCodeSpec |
| CompareStage.MonthCodeSpec | probability-density-functions/IMERG_GISS_hist_stats.py:201 | an abbreviation gets its two-digit month, and any other text gets "None" |
| CompareStage.PathOf | probability-density-functions/IMERG_GISS_hist_stats.py:142-147 | the year folder, region folder and file name an archive is read from; stated by CompareStage.PathOfInjective |
| CompareStage.PathOfInjective | probability-density-functions/IMERG_GISS_hist_stats.py:142 | different archives (year, month, region, variable) have different paths |
| CompareStage.ProductAt | probability-density-functions/IMERG_GISS_hist_stats.py:136-148 | nested loops visit pair (a, b) at position a × \|inner\| + b |
| CompareStage.SingleYearPlan | probability-density-functions/IMERG_GISS_hist_stats.py:134-148 | the single-year reports; stated by CompareStage.SingleYearOrder |
| CompareStage.YearsPlan | probability-density-functions/IMERG_GISS_hist_stats.py:163-176 | the years-mode reports; stated by CompareStage.YearsOrder |
| CompareStage.ExpandMonths | probability-density-functions/IMERG_GISS_hist_stats.py:194-195 | "ALL" stands for the twelve abbreviations; stated by CompareStage.MonthOrder and CompareStage.NoYearsNoPlots |
| CompareStage.MonthPlan | probability-density-functions/IMERG_GISS_hist_stats.py:192-207 | the month-mode reports; stated by CompareStage.MonthOrder |
| CompareStage.SeasonPlan | probability-density-functions/IMERG_GISS_hist_stats.py:222-257 | a season's reports; stated by CompareStage.SeasonRefAt and CompareStage.WinterNoYearShift |
| CompareStage.SingleYearOrder | probability-density-functions/IMERG_GISS_hist_stats.py:134-148 | single-year mode makes one report per (year, region), year outer; each pools the twelve months in order |
| CompareStage.YearsOrder | probability-density-functions/IMERG_GISS_hist_stats.py:163-176 | years mode makes one report per region, pooling every year's twelve months, year-major |
| CompareStage.MonthOrder | probability-density-functions/IMERG_GISS_hist_stats.py:192-207 | month mode makes one report per (region, month), with "ALL" meaning the twelve months; each pools that month of every year |
| CompareStage.SeasonRefAt | probability-density-functions/IMERG_GISS_hist_stats.py:224-236 | a season report pools month k of year a at position k × \|years\| + a (month-major) |
| CompareStage.WinterNoYearShift | probability-density-functions/IMERG_GISS_hist_stats.py:227-251 | winter pools December of the same year, not of the year before |
| CompareStage.SeasonMonths | probability-density-functions/IMERG_GISS_hist_stats.py:250-257 | the months of each named season; stated by CompareStage.SeasonsPartitionYear and CompareStage.WinterNoYearShift |
| CompareStage.SeasonsPartitionYear | probability-density-functions/IMERG_GISS_hist_stats.py:250-257 | the four seasons have three months each and together cover the twelve months |
| CompareStage.Loaded | probability-density-functions/IMERG_GISS_hist_stats.py:141-148 | loading each month's archive pair; stated by CompareStage.LoadedSpec, CompareStage.LoadedFirstMissing and CompareStage.LoadedStops |
| CompareStage.LoadedSpec | probability-density-functions/IMERG_GISS_hist_stats.py:141-148 | loading succeeds iff both archives of every month exist, and then yields them in order |
| CompareStage.LoadedFirstMissing | probability-density-functions/IMERG_GISS_hist_stats.py:141-148 | the first missing archive raises, GISS before IMERG |
| CompareStage.LoadedStops | probability-density-functions/IMERG_GISS_hist_stats.py:141-148 | after a missing archive, later months are not loaded |
| CompareStage.Pool | probability-density-functions/IMERG_GISS_hist_stats.py:141-152 | one report's pooled values; stated by CompareStage.PoolSpec, CompareStage.PoolMembers and CompareStage.PoolAppend |
| CompareStage.PoolSpec | probability-density-functions/IMERG_GISS_hist_stats.py:141-152 | pooling succeeds iff there is a month and all archives exist; it gives the concatenated values without NaN |
| CompareStage.PoolMembers | probability-density-functions/IMERG_GISS_hist_stats.py:149-152 | a pooled value is exactly a present value of one of the loaded archives |
| CompareStage.PoolAppend | probability-density-functions/IMERG_GISS_hist_stats.py:149-152 | pooling a longer month list is pooling its two parts and concatenating |
| CompareStage.PoolUnit | probability-density-functions/IMERG_GISS_hist_stats.py:138-152 | the loading loop computes the specified pool |
| CompareStage.Plot | probability-density-functions/IMERG_GISS_hist_stats.py:136-161 | one report: the pool, then the histogram's percentiles; stated by CompareStage.PlotSpec |
| CompareStage.PoolNonEmpty | probability-density-functions/IMERG_GISS_hist_stats.py:149-152 | a pooled array is non-empty iff one of the archives read holds a present value |
| CompareStage.PlotSpec | probability-density-functions/IMERG_GISS_hist_stats.py:287-290 | a plot is made iff its pool succeeds and each folder's archives hold a present value, and it then shows the pooled arrays; an all-missing GISS side, then IMERG side, raises at `np.percentile` |
| CompareStage.Execute | probability-density-functions/IMERG_GISS_hist_stats.py:136-161 | running a plan of reports; stated by CompareStage.ExecuteSpec, CompareStage.ExecuteAppend and CompareStage.ExecuteStops |
| CompareStage.ExecuteSpec | probability-density-functions/IMERG_GISS_hist_stats.py:136-161 | reports are made in plan order from each plot, and the run stops at the first plot that fails (a pool that fails or an empty pooled array), with its error |
| CompareStage.ExecuteAppend | probability-density-functions/IMERG_GISS_hist_stats.py:263-282 | running two plans in a row equals running the joined plan |
| CompareStage.ExecuteStops | probability-density-functions/IMERG_GISS_hist_stats.py:136-161 | after a failure, later reports are not made |
| CompareStage.RunPlan | probability-density-functions/IMERG_GISS_hist_stats.py:136-161 | the report loop produces the specified outcome |
| CompareStage.SeasonMode | probability-density-functions/IMERG_GISS_hist_stats.py:222-284 | season mode; stated by CompareStage.RejectionRules, CompareStage.SeasonModeAll and CompareStage.AllSeasonsInOrder |
| CompareStage.CompareViz | probability-density-functions/IMERG_GISS_hist_stats.py:92-284 | the mode dispatch; stated by CompareStage.RejectionRules and CompareStage.NoYearsNoPlots |
| CompareStage.RejectionRules | probability-density-functions/IMERG_GISS_hist_stats.py:258-284 | rejects exactly an unknown mode, an unknown season and a custom list with a non-month; a rejection reads no archive |
| CompareStage.SeasonModeAll | probability-density-functions/IMERG_GISS_hist_stats.py:263-282 | "all" runs winter, spring, summer and fall in turn, stopping at the first failure |
| CompareStage.AllSeasonsInOrder | probability-density-functions/IMERG_GISS_hist_stats.py:263-282 | "all" equals one plan of the four seasons' reports in order |
| CompareStage.NoYearsNoPlots | probability-density-functions/IMERG_GISS_hist_stats.py:163-211 | with no years, years and month modes raise at the first concatenation with no report |
| CompareStage.CreateCompareViz | probability-density-functions/IMERG_GISS_hist_stats.py:92-284 | the entry point dispatches on mode and yields the specified verdict |
| CompareStage.RunSeasonMode | probability-density-functions/IMERG_GISS_hist_stats.py:222-282 | season mode yields the specified verdict |
| CompareStage.RunAllSeasons | probability-density-functions/IMERG_GISS_hist_stats.py:268-282 | the "all" branch runs the four season plans in order |
| CompareStage.GissArchiveIsRead | probability-density-functions/saveGISSfiles.py:141-144 | the cube archive written for a GISS month is the file the comparison opens for that month, and it holds the masked cube's values |
| PrecipEvents.IsBreak | top-precipitation-events/examine_chosen_precipitation_events.py:15 | a reading of at most 0.89 starts an event; stated by PrecipEvents.BeforeFirstBreak and PrecipEvents.EventIdsStep |
| PrecipEvents.EventIds | top-precipitation-events/examine_chosen_precipitation_events.py:15-16 | `(precip <= 0.89).cumsum()`; stated by PrecipEvents.EventIdsCountBreaks, PrecipEvents.EventIdsStep and PrecipEvents.EventIdsMonotone |
| PrecipEvents.EventIdsCountBreaks | top-precipitation-events/examine_chosen_precipitation_events.py:15-16 | a reading's event id is the number of breaks up to and including it |
| PrecipEvents.EventIdsStep | top-precipitation-events/examine_chosen_precipitation_events.py:16 | the id grows by one exactly at a break |
| PrecipEvents.EventIdsMonotone | top-precipitation-events/examine_chosen_precipitation_events.py:16 | event ids never decrease along the record |
| PrecipEvents.BeforeFirstBreak | top-precipitation-events/examine_chosen_precipitation_events.py:15-16 | id 0 means no break so far; a break starts a new id |
| PrecipEvents.Label | top-precipitation-events/examine_chosen_precipitation_events.py:16 | the readings with their event ids; stated by PrecipEvents.LabelSorted |
| PrecipEvents.LabelSorted | top-precipitation-events/examine_chosen_precipitation_events.py:16 | the labelled rows are sorted by event id |
| PrecipEvents.GroupBy | top-precipitation-events/examine_chosen_precipitation_events.py:19-23 | there are no more events than rows, and the last event carries the last row's id |
| PrecipEvents.GroupByAscending | top-precipitation-events/examine_chosen_precipitation_events.py:19-23 | events come out in strictly ascending id order |
| PrecipEvents.GroupByKeys | top-precipitation-events/examine_chosen_precipitation_events.py:19-23 | there is one event per id that occurs |
| PrecipEvents.GroupByFacts | top-precipitation-events/examine_chosen_precipitation_events.py:19-23 | each event has its id's first time, last time and precipitation sum |
| PrecipEvents.SingleRowKey | top-precipitation-events/examine_chosen_precipitation_events.py:20-26 | an id with one row has start equal to end |
| PrecipEvents.GroupByConservesTotal | top-precipitation-events/examine_chosen_precipitation_events.py:22 | the event totals add up to the record's total precipitation |
| PrecipEvents.DurationHours | top-precipitation-events/examine_chosen_precipitation_events.py:26 | end minus start in hours; stated by PrecipEvents.LastingIffLater and PrecipEvents.RankEventsSpec |
| PrecipEvents.LastingIffLater | top-precipitation-events/examine_chosen_precipitation_events.py:26-30 | positive duration in hours means end after start |
| PrecipEvents.FilterMembers | top-precipitation-events/examine_chosen_precipitation_events.py:30-33 | boolean selection keeps exactly the matching rows |
| PrecipEvents.Kept | top-precipitation-events/examine_chosen_precipitation_events.py:30-33 | every kept event has positive duration and positive total |
| PrecipEvents.KeptEvents | top-precipitation-events/examine_chosen_precipitation_events.py:19-33 | an event survives iff it lasts and is wet; a survivor spans at least two readings |
| PrecipEvents.Rank | top-precipitation-events/examine_chosen_precipitation_events.py:36-37 | `rank(ascending=False)`; stated by PrecipEvents.RankSpec |
| PrecipEvents.Score | top-precipitation-events/examine_chosen_precipitation_events.py:40-44 | the weighted score; stated by PrecipEvents.RankEventsSpec |
| PrecipEvents.RankSpec | top-precipitation-events/examine_chosen_precipitation_events.py:36-37 | descending average rank: between 1 and n, larger values rank lower, ties share a rank, a strict maximum ranks 1 |
| PrecipEvents.RankEvents | top-precipitation-events/examine_chosen_precipitation_events.py:36-44 | one ranked row per surviving event, in order |
| PrecipEvents.AverageRate | top-precipitation-events/examine_chosen_precipitation_events.py:27 | total over duration in hours; stated by PrecipEvents.RankEventsSpec |
| PrecipEvents.RankEventsSpec | top-precipitation-events/examine_chosen_precipitation_events.py:27-44 | the rate is total over hours; ranks follow totals and rates; the score is 0.55 × total rank + 0.45 × rate rank, between 1 and n |
| PrecipEvents.AllEvents | top-precipitation-events/examine_chosen_precipitation_events.py:47 | `pd.concat` of every file's ranked events; stated by PrecipEvents.AllEventsMembers, PrecipEvents.AllEventsStep and PrecipEvents.CollectEvents |
| PrecipEvents.AllEventsMembers | top-precipitation-events/examine_chosen_precipitation_events.py:47 | the collected events are exactly the ranked events of some file |
| PrecipEvents.AllEventsStep | top-precipitation-events/examine_chosen_precipitation_events.py:47 | each file appends its ranked events |
| PrecipEvents.CollectEvents | top-precipitation-events/examine_chosen_precipitation_events.py:9-47 | the file loop collects every file's events, and `data` is the last file's labelled readings |
| PrecipEvents.MatchesMembers | top-precipitation-events/examine_chosen_precipitation_events.py:50 | the matches of a row are exactly the events with its id |
| PrecipEvents.MergeRow | top-precipitation-events/examine_chosen_precipitation_events.py:50 | a left merge keeps every row at least once |
| PrecipEvents.MergeRowSpec | top-precipitation-events/examine_chosen_precipitation_events.py:50 | each merged row carries the reading and an event with its id, or none when no event matches |
| PrecipEvents.LeftMerge | top-precipitation-events/examine_chosen_precipitation_events.py:50 | the left merge on the event id; stated by PrecipEvents.LeftMergeKeepsRows, PrecipEvents.LeftMergeJoined and PrecipEvents.LeftMergeSorted |
| PrecipEvents.LeftMergeRows | top-precipitation-events/examine_chosen_precipitation_events.py:50 | the merge makes no rows out of nothing |
| PrecipEvents.LeftMergeKeepsRows | top-precipitation-events/examine_chosen_precipitation_events.py:50 | every reading appears in the merge |
| PrecipEvents.LeftMergeJoined | top-precipitation-events/examine_chosen_precipitation_events.py:50 | every merged row is correctly joined |
| PrecipEvents.LeftMergeLast | top-precipitation-events/examine_chosen_precipitation_events.py:50 | the merge ends with the last reading |
| PrecipEvents.LeftMergeSorted | top-precipitation-events/examine_chosen_precipitation_events.py:50 | the merge keeps the readings' id order |
| PrecipEvents.OnDatesAsWritten | top-precipitation-events/examine_chosen_precipitation_events.py:53 | the day filter as written; stated by PrecipEvents.OnDatesAsWrittenEmpty |
| PrecipEvents.Day | top-precipitation-events/examine_chosen_precipitation_events.py:53 | `.dt.date` of a reading; used by PrecipEvents.OnDatesMembers and PrecipEvents.DateFilterCounterexample |
| PrecipEvents.OnDates | top-precipitation-events/examine_chosen_precipitation_events.py:53 | the corrected day filter; stated by PrecipEvents.OnDatesMembers and PrecipEvents.OnDatesSorted |
| PrecipEvents.OnDatesAsWrittenEmpty | top-precipitation-events/examine_chosen_precipitation_events.py:53 | as written, comparing dates with strings selects nothing |
| PrecipEvents.DateFilterCounterexample | top-precipitation-events/examine_chosen_precipitation_events.py:53 | a reading on a chosen day is kept by the corrected filter and dropped as written |
| PrecipEvents.OnDatesMembers | top-precipitation-events/examine_chosen_precipitation_events.py:53 | the day filter keeps exactly the merged rows whose day is chosen |
| PrecipEvents.OnDatesSorted | top-precipitation-events/examine_chosen_precipitation_events.py:53 | the day filter keeps the id order |
| PrecipEvents.FirstPerEvent | top-precipitation-events/examine_chosen_precipitation_events.py:56 | `groupby('EventID').first()`; stated by PrecipEvents.FirstPerEventSpec and PrecipEvents.FirstPerEventFrom |
| PrecipEvents.FirstPerEventSpec | top-precipitation-events/examine_chosen_precipitation_events.py:56 | one row per id, which is that id's first row; ids are kept, and ascending for sorted input |
| PrecipEvents.FirstPerEventFrom | top-precipitation-events/examine_chosen_precipitation_events.py:56 | every reported row comes from the filtered rows |
| PrecipEvents.AllEventsColumns | top-precipitation-events/examine_chosen_precipitation_events.py:47 | the concatenated events have an `EventID` column iff a file was read and the index was kept |
| PrecipEvents.MergeOn | top-precipitation-events/examine_chosen_precipitation_events.py:50 | merging raises a key error naming the key iff a side lacks the key column; otherwise every merged row is one of the readings, joined to an event with its id or to none |
| PrecipEvents.AnalyzeAsWritten | top-precipitation-events/examine_chosen_precipitation_events.py:6-60 | the analysis as written; stated by PrecipEvents.AnalyzeAsWrittenFails and PrecipEvents.AnalyzeCounterexample |
| PrecipEvents.AnalyzeAsWrittenFails | top-precipitation-events/examine_chosen_precipitation_events.py:47-50 | as written, no files leaves `data` unbound and any file raises a key error on `EventID` |
| PrecipEvents.AnalyzeCounterexample | top-precipitation-events/examine_chosen_precipitation_events.py:47-53 | one file with one wet reading raises as written, while the corrected analysis reports that reading's event id |
| PrecipEvents.Analyze | top-precipitation-events/examine_chosen_precipitation_events.py:6-60 | the corrected analysis; stated by PrecipEvents.AnalyzeSpec and PrecipEvents.AnalyzeReportsDay |
| PrecipEvents.AnalyzeSpec | top-precipitation-events/examine_chosen_precipitation_events.py:6-60 | fails iff there are no files; otherwise gives one row per event id on a chosen day, the id's first row, joined, in ascending id order |
| PrecipEvents.ReportedRows | top-precipitation-events/examine_chosen_precipitation_events.py:50-56 | merge, day filter and first-per-id give joined rows on chosen days, one per id, ascending |
| PrecipEvents.RowReported | top-precipitation-events/examine_chosen_precipitation_events.py:50-56 | every reading on a chosen day has its event reported |
| PrecipEvents.AnalyzeReportsDay | top-precipitation-events/examine_chosen_precipitation_events.py:50-56 | every reading of the last file on a chosen day has its event id in the result |
| PrecipEvents.AnalyzePrecipitationData | top-precipitation-events/examine_chosen_precipitation_events.py:6-60 | the function computes the corrected analysis |

## Left out

- File I/O is not modelled. This covers directory listing, `os.makedirs`, reading netCDF, CSV and npz files, and writing them. A folder's contents are given as values, and a written file is a `Written` record with its year folder, region, name and contents. The progress `print` calls are left out too.
- Regridding (`xr.interp`, nearest neighbour) is not computed. Each IMERG file carries its regridded cube next to its native one, and the model only chooses between them.
- Time stamps are given as decoded `Timestamp` values (year, month, day, hour, minute). Decoding netCDF time units and cftime calendars is left out.
- Grids.MeanOf: a cell that is missing in only some steps gets the mean of its present values. The contracts only claim that the mean is missing iff all steps are missing, and that it stays within the bounds of the present values. Floating-point rounding is not modelled; values are reals.
- Mask alignment: xarray aligns the mask to the data by coordinate labels. The model requires the padded mask of each region a run opens to have the data grid's axes, so the mask is applied cell by cell. Mask files of other regions are unconstrained. Data on other axes is outside the model.
- The drawing in the comparison stage is left out: the histogram bins, the percentile lines and the text box of `histogramGISSIMERG`. `statsTableGISSIMERG` does nothing. A report records its title, its output file stems and the two pooled value lists that those functions receive. Of the histogram's arithmetic, the model keeps only the exception: `np.percentile` of an empty pooled array raises and ends the call (`CompareStage.Plot`). `np.mean` of an empty array gives NaN without raising and is not modelled.
- `NYC_PDF_fromCSV.py` is not part of this model.
- In the event analysis, the CSV reading and `pd.to_datetime` are left out. Readings are given as (seconds, precipitation), and a chosen date is given as its day number, seconds divided by 86400. The final `to_csv` is left out as well.
- Precipitation values are assumed present (no NaN). pandas `first()` skips NaN per column; with no NaN it takes the group's first row, which is what `FirstPerEvent` does. Within one id the merged rows either all carry an event or all carry none.
- PrecipEvents.Analyze merges only the last file's readings, exactly as the source does at line 50. Event ids restart at 0 in each file, so an id can match events from several files. The model keeps those multiple matches, as the merge does.
- CompareStage: plot titles and output file stems are built as strings, and the contracts state only which archives each report pools and in what order. The progress `print` calls are left out.

## Findings

| source | as written | input that shows it | evidently intended | confidence | as-written member | corrected member |
|---|---|---|---|---|---|---|
| probability-density-functions/saveIMERGfiles.py:139-178 | `regrid_dataset` is bound only when `regrid and regrid_file`, but it is used whenever `regrid_file` is set | `regrid=False` with `regrid_file` set (as the docstring permits) and no resampling: the first file raises `UnboundLocalError` | use the native grid whenever regridding is off | not executed | ImergIngest.RegridFileWithoutRegridding | ImergIngest.KeptCubesFailures |
| top-precipitation-events/examine_chosen_precipitation_events.py:47-50 | `pd.concat(..., ignore_index=True)` drops the `EventID` index, so `merge(on='EventID')` raises `KeyError` | one file holding the single reading (1970-01-01 00:00, 2.0) | keep `EventID` as a column so the merge joins events to readings | not executed | PrecipEvents.AnalyzeAsWrittenFails | PrecipEvents.AnalyzeSpec |
| top-precipitation-events/examine_chosen_precipitation_events.py:53 | `.dt.date.isin(dates)` compares `datetime.date` values with the strings in `dates`, which never match | a merged reading at 1970-01-01 01:00 with dates `["1970-01-01"]` is dropped | select the readings whose calendar date is one of the chosen dates | not executed | PrecipEvents.DateFilterCounterexample | PrecipEvents.OnDatesMembers |
