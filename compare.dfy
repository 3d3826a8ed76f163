/** The comparison stage (`createCompareViz` and its nested `season_mode` in
    IMERG_GISS_hist_stats.py): a mode, a season and a month list select an
    ordered list of monthly archives per plot; each archive is read from the
    GISS folder and then from the IMERG folder under the same name, the reads
    are concatenated, and the missing values are dropped before plotting. */
module CompareStage {
  import opened Common
  import opened Grids
  import opened RegionMasks
  import opened Naming
  import opened Outputs
  import GissIngest

  // ---------------------------------------------------------------------
  // Tables
  // ---------------------------------------------------------------------

  /** `region_dict`: region identifier to the name shown in plot titles. */
  const RegionDict: map<string, string> := map[
    "global" := "Global", "southwest" := "Southwest USA", "southeast" := "Southeast USA",
    "midwest" := "Midwest USA", "northeast" := "Northeast USA", "northwest" := "Northwest USA",
    "northerngreatplains" := "Northern Great Plains USA", "southerngreatplains" := "Southern Great Plains USA",
    "contUSA" := "Contiguous USA", "nyc" := "New York City", "northeastcoast" := "Northeast USA Coast"]

  /** `region_dict.get(region)`, falling back to the identifier itself. The shown
      name differs from the identifier exactly for the regions in the table. */
  function RegionDisplayName(region: string): (r: string)
    ensures r == region <==> region !in RegionDict
    ensures region in RegionDict ==> r in RegionDict.Values
  {
    if region in RegionDict then RegionDict[region] else region
  }

  /** `month_dict.get(month)` formatted into a file name: an unknown month
      formats as the text `None`. */
  function MonthCode(month: string): string
  {
    if month in MonthDict then MonthDict[month] else "None"
  }

  /** A known abbreviation gives its two-digit month; anything else gives `None`. */
  lemma MonthCodeSpec(month: string)
    ensures forall i :: 0 <= i < 12 && MonthAbbrevs[i] == month ==> MonthCode(month) == MonthStrings[i]
    ensures MonthCode(month) == "None" <==> month !in MonthAbbrevs
  {
    MonthTables();
    MonthDictKeys(month);
  }

  // ---------------------------------------------------------------------
  // Archive references and the two folders
  // ---------------------------------------------------------------------

  /** `<folder>/<yearFolder>/<region>/<fileName>`, without the folder. */
  datatype ArchivePath = ArchivePath(yearFolder: int, region: string, fileName: string)

  /** A data folder: what `np.load(path)['all_values'].flatten()` yields for each archive
      whose file `PathOf(r)` exists (`PathOfInjective`: distinct archives are distinct files). */
  type Store = map<ArchiveRef, seq<Cell>>

  datatype Source = Giss | Imerg

  /** A (year, two-digit month) pair in read order. */
  datatype Key = Key(year: int, code: string)

  /** The archive a plot reads: a region, a variable and a (year, month) key. */
  datatype ArchiveRef = ArchiveRef(region: string, variable: string, key: Key)

  /** Where an archive is read from: the year's folder, the region, and the file name
      `{year}_{month}_{region}_{variable}.npz`. */
  function PathOf(r: ArchiveRef): ArchivePath
  {
    ArchivePath(r.key.year, r.region, ArchiveFileName(r.key.year, r.key.code, r.region, r.variable))
  }

  /** Two archives with month codes of the same width (the two-digit codes every plan
      uses) are read from the same file only when they are the same archive. */
  lemma PathOfInjective(r1: ArchiveRef, r2: ArchiveRef)
    requires |r1.key.code| == |r2.key.code|
    requires PathOf(r1) == PathOf(r2)
    ensures r1 == r2
  {
    var y, region := r1.key.year, r1.region;
    var t1 := "_" + region + "_" + r1.variable + ".npz";
    var t2 := "_" + region + "_" + r2.variable + ".npz";
    ArchiveShape(y, r1.key.code, region, r1.variable);
    ArchiveShape(y, r2.key.code, region, r2.variable);
    var d := Decimal(y) + ['_'];
    assert d + (r1.key.code + t1) == d + (r2.key.code + t2);
    assert r1.key.code + t1 == r2.key.code + t2 by {
      assert (d + (r1.key.code + t1))[|d|..] == r1.key.code + t1;
      assert (d + (r2.key.code + t2))[|d|..] == r2.key.code + t2;
    }
    var n := |r1.key.code|;
    assert r1.key.code == (r1.key.code + t1)[..n];
    assert r2.key.code == (r2.key.code + t2)[..n];
    assert t1 == (r1.key.code + t1)[n..];
    assert t2 == (r2.key.code + t2)[n..];
    var h := |"_" + region + "_"|;
    assert r1.variable == t1[h..|t1| - 4];
    assert r2.variable == t2[h..|t2| - 4];
  }

  function Refs(region: string, variable: string, keys: seq<Key>): (r: seq<ArchiveRef>)
    ensures |r| == |keys|
    ensures forall i :: 0 <= i < |keys| ==> r[i] == ArchiveRef(region, variable, keys[i])
  {
    seq(|keys|, i requires 0 <= i < |keys| => ArchiveRef(region, variable, keys[i]))
  }

  // ---------------------------------------------------------------------
  // Nested loops as ordered products
  // ---------------------------------------------------------------------

  function Row<A, B, C>(x: A, ys: seq<B>, f: (A, B) -> C): (r: seq<C>)
    ensures |r| == |ys|
  {
    seq(|ys|, b requires 0 <= b < |ys| => f(x, ys[b]))
  }

  function Rows<A, B, C>(xs: seq<A>, ys: seq<B>, f: (A, B) -> C): (r: seq<seq<C>>)
    ensures |r| == |xs|
    ensures forall a :: 0 <= a < |xs| ==> r[a] == Row(xs[a], ys, f)
  {
    seq(|xs|, a requires 0 <= a < |xs| => Row(xs[a], ys, f))
  }

  /** `for x in xs: for y in ys: emit f(x, y)`. */
  function Product<A, B, C>(xs: seq<A>, ys: seq<B>, f: (A, B) -> C): seq<C>
  {
    Concat(Rows(xs, ys, f))
  }

  /** The outer loop is major: item (a, b) is emitted at position a * |ys| + b. */
  lemma ProductAt<A, B, C>(xs: seq<A>, ys: seq<B>, f: (A, B) -> C, a: nat, b: nat)
    requires a < |xs| && b < |ys|
    ensures |Product(xs, ys, f)| == |xs| * |ys|
    ensures a * |ys| + b < |Product(xs, ys, f)|
    ensures Product(xs, ys, f)[a * |ys| + b] == f(xs[a], ys[b])
  {
    var rows := Rows(xs, ys, f);
    ConcatUniformLength(rows, |ys|);
    ConcatUniformAt(rows, |ys|, a, b);
  }

  lemma ProductLength<A, B, C>(xs: seq<A>, ys: seq<B>, f: (A, B) -> C)
    ensures |Product(xs, ys, f)| == |xs| * |ys|
  {
    ConcatUniformLength(Rows(xs, ys, f), |ys|);
  }

  function YearFirst(): (int, string) -> Key
  {
    (y: int, c: string) => Key(y, c)
  }

  function MonthFirst(): (string, int) -> Key
  {
    (c: string, y: int) => Key(y, c)
  }

  /** Year-major: `for year in years: for code in codes`. */
  function YearMajor(years: seq<int>, codes: seq<string>): seq<Key>
  {
    Product(years, codes, YearFirst())
  }

  /** Month-major: `for code in codes: for year in years`. */
  function MonthMajor(codes: seq<string>, years: seq<int>): seq<Key>
  {
    Product(codes, years, MonthFirst())
  }

  function Codes(months: seq<string>): (r: seq<string>)
    ensures |r| == |months|
    ensures forall i :: 0 <= i < |months| ==> r[i] == MonthCode(months[i])
  {
    seq(|months|, i requires 0 <= i < |months| => MonthCode(months[i]))
  }

  // ---------------------------------------------------------------------
  // Plans: one unit per histogram/table pair
  // ---------------------------------------------------------------------

  /** One plot: its title, the stem of its two image names, and the archives pooled for it. */
  datatype Unit = Unit(title: string, stem: string, refs: seq<ArchiveRef>)

  /** `f"{years[0]}-{years[-1]}"`; only reached when `years` is non-empty,
      since an empty year list fails at the concatenation before the title. */
  function Span(years: seq<int>): string
  {
    if years == [] then "" else Decimal(years[0]) + "-" + Decimal(years[|years| - 1])
  }

  function SingleYearUnit(year: int, region: string, variable: string): Unit
  {
    Unit(Decimal(year) + " " + RegionDisplayName(region),
         Decimal(year) + "_" + region + "_singleyear",
         Refs(region, variable, YearMajor([year], MonthStrings)))
  }

  function SingleYearMaker(variable: string): (int, string) -> Unit
  {
    (y: int, r: string) => SingleYearUnit(y, r, variable)
  }

  /** `single-year`: a plot per (year, region), year-major, months 01..12. */
  function SingleYearPlan(years: seq<int>, regions: seq<string>, variable: string): seq<Unit>
  {
    Product(years, regions, SingleYearMaker(variable))
  }

  function YearsUnit(years: seq<int>, region: string, variable: string): Unit
  {
    Unit(Span(years) + " " + RegionDisplayName(region),
         Span(years) + "_" + region + "_severalyears",
         Refs(region, variable, YearMajor(years, MonthStrings)))
  }

  /** `years`: a plot per region pooling every month of every year. */
  function YearsPlan(years: seq<int>, regions: seq<string>, variable: string): (r: seq<Unit>)
    ensures |r| == |regions|
    ensures forall i :: 0 <= i < |regions| ==> r[i] == YearsUnit(years, regions[i], variable)
  {
    seq(|regions|, i requires 0 <= i < |regions| => YearsUnit(years, regions[i], variable))
  }

  /** A month list holding `ALL` stands for the twelve months in calendar order. */
  function ExpandMonths(months: seq<string>): seq<string>
  {
    if "ALL" in months then MonthAbbrevs else months
  }

  function MonthUnit(years: seq<int>, region: string, month: string, variable: string): Unit
  {
    Unit(month + ", " + Span(years) + " " + RegionDisplayName(region),
         month + "_" + Span(years) + "_" + region,
         Refs(region, variable, MonthMajor([MonthCode(month)], years)))
  }

  function MonthMaker(years: seq<int>, variable: string): (string, string) -> Unit
  {
    (r: string, m: string) => MonthUnit(years, r, m, variable)
  }

  /** `month`: a plot per (region, month), each pooling the month over the years. */
  function MonthPlan(years: seq<int>, regions: seq<string>, months: seq<string>, variable: string): seq<Unit>
  {
    Product(regions, ExpandMonths(months), MonthMaker(years, variable))
  }

  function SeasonUnit(seasonName: string, months: seq<string>, years: seq<int>, region: string, variable: string): Unit
  {
    Unit(seasonName + ", " + Span(years) + " " + RegionDisplayName(region),
         seasonName + "_" + Span(years) + "_" + region,
         SeasonRefs(months, years, region, variable))
  }

  /** The archives one season plot reads: month-major, then year. */
  function SeasonRefs(months: seq<string>, years: seq<int>, region: string, variable: string): seq<ArchiveRef>
  {
    Refs(region, variable, MonthMajor(Codes(months), years))
  }

  /** `season_mode()`: a plot per region pooling the season's months over the years. */
  function SeasonPlan(seasonName: string, months: seq<string>, years: seq<int>, regions: seq<string>, variable: string): (r: seq<Unit>)
    ensures |r| == |regions|
    ensures forall i :: 0 <= i < |regions| ==> r[i] == SeasonUnit(seasonName, months, years, regions[i], variable)
  {
    seq(|regions|, i requires 0 <= i < |regions| => SeasonUnit(seasonName, months, years, regions[i], variable))
  }

  // ---------------------------------------------------------------------
  // Read order by mode
  // ---------------------------------------------------------------------

  /** `single-year`: plots go year-major over regions, each reading months 01..12 of its year. */
  lemma SingleYearOrder(years: seq<int>, regions: seq<string>, variable: string, a: nat, b: nat, k: nat)
    requires a < |years| && b < |regions| && k < 12
    ensures |SingleYearPlan(years, regions, variable)| == |years| * |regions|
    ensures a * |regions| + b < |years| * |regions|
    ensures var u := SingleYearPlan(years, regions, variable)[a * |regions| + b];
              |u.refs| == 12 && u.refs[k] == ArchiveRef(regions[b], variable, Key(years[a], MonthStrings[k]))
  {
    ProductAt(years, regions, SingleYearMaker(variable), a, b);
    MonthTables();
    ProductAt([years[a]], MonthStrings, YearFirst(), 0, k);
  }

  /** `years`: one plot per region, reading year-major then month. */
  lemma YearsOrder(years: seq<int>, regions: seq<string>, variable: string, i: nat, a: nat, k: nat)
    requires i < |regions| && a < |years| && k < 12
    ensures var u := YearsPlan(years, regions, variable)[i];
              |u.refs| == |years| * 12 && a * 12 + k < |u.refs| &&
              u.refs[a * 12 + k] == ArchiveRef(regions[i], variable, Key(years[a], MonthStrings[k]))
  {
    MonthTables();
    ProductAt(years, MonthStrings, YearFirst(), a, k);
  }

  /** `month`: plots go region-major over the (expanded) months, each reading its month
      in every year, years in the given order. */
  lemma MonthOrder(years: seq<int>, regions: seq<string>, months: seq<string>, variable: string, b: nat, c: nat, a: nat)
    requires b < |regions| && a < |years|
    requires c < |if "ALL" in months then MonthAbbrevs else months|
    ensures var ms := if "ALL" in months then MonthAbbrevs else months;
              |MonthPlan(years, regions, months, variable)| == |regions| * |ms| &&
              b * |ms| + c < |regions| * |ms| &&
              var u := MonthPlan(years, regions, months, variable)[b * |ms| + c];
              |u.refs| == |years| &&
              u.refs[a] == ArchiveRef(regions[b], variable, Key(years[a], MonthCode(ms[c])))
  {
    var ms := ExpandMonths(months);
    ProductAt(regions, ms, MonthMaker(years, variable), b, c);
    ProductAt([MonthCode(ms[c])], years, MonthFirst(), 0, a);
  }

  /** `season`: the k-th month's archive of year `a` sits at k * |years| + a. */
  lemma SeasonRefAt(months: seq<string>, years: seq<int>, region: string, variable: string, k: nat, a: nat)
    requires k < |months| && a < |years|
    ensures |SeasonRefs(months, years, region, variable)| == |months| * |years|
    ensures k * |years| + a < |SeasonRefs(months, years, region, variable)|
    ensures SeasonRefs(months, years, region, variable)[k * |years| + a] ==
              ArchiveRef(region, variable, Key(years[a], MonthCode(months[k])))
  {
    var codes := Codes(months);
    CodeMajorAt(codes, years, region, variable, k, a);
  }

  /** Month-major reading over given month codes. */
  lemma CodeMajorAt(codes: seq<string>, years: seq<int>, region: string, variable: string, k: nat, a: nat)
    requires k < |codes| && a < |years|
    ensures |Refs(region, variable, MonthMajor(codes, years))| == |codes| * |years|
    ensures k * |years| + a < |Refs(region, variable, MonthMajor(codes, years))|
    ensures Refs(region, variable, MonthMajor(codes, years))[k * |years| + a] ==
              ArchiveRef(region, variable, Key(years[a], codes[k]))
  {
    ProductAt(codes, years, MonthFirst(), k, a);
  }

  // ---------------------------------------------------------------------
  // Seasons
  // ---------------------------------------------------------------------

  /** The months of a named season; `None` for any other name. */
  function SeasonMonths(season: string): Option<seq<string>>
  {
    if season == "winter" then Some(["DEC", "JAN", "FEB"])
    else if season == "spring" then Some(["MAR", "APR", "MAY"])
    else if season == "summer" then Some(["JUN", "JUL", "AUG"])
    else if season == "fall" then Some(["SEP", "OCT", "NOV"])
    else None
  }

  /** Winter reads December of the same year as its January and February: for every
      year, the December archive comes first, then January, then February, all dated that year. */
  lemma WinterNoYearShift(years: seq<int>, regions: seq<string>, variable: string, i: nat, a: nat)
    requires i < |regions| && a < |years|
    ensures var u := SeasonPlan("winter", SeasonMonths("winter").value, years, regions, variable)[i];
              |u.refs| == 3 * |years| &&
              u.refs[a] == ArchiveRef(regions[i], variable, Key(years[a], "12")) &&
              u.refs[|years| + a] == ArchiveRef(regions[i], variable, Key(years[a], "01")) &&
              u.refs[2 * |years| + a] == ArchiveRef(regions[i], variable, Key(years[a], "02"))
  {
    var months := ["DEC", "JAN", "FEB"];
    var codes := ["12", "01", "02"];
    WinterCodes();
    assert SeasonPlan("winter", months, years, regions, variable)[i].refs ==
           Refs(regions[i], variable, MonthMajor(codes, years));
    ThreeCodeRefs(codes, years, regions[i], variable, a);
  }

  /** With three month codes, each year's archives sit one year-run apart. */
  lemma ThreeCodeRefs(codes: seq<string>, years: seq<int>, region: string, variable: string, a: nat)
    requires |codes| == 3 && a < |years|
    ensures var refs := Refs(region, variable, MonthMajor(codes, years));
              |refs| == 3 * |years| &&
              refs[a] == ArchiveRef(region, variable, Key(years[a], codes[0])) &&
              refs[|years| + a] == ArchiveRef(region, variable, Key(years[a], codes[1])) &&
              refs[2 * |years| + a] == ArchiveRef(region, variable, Key(years[a], codes[2]))
  {
    var n := |years|;
    ThreeCodeLength(codes, years, region, variable);
    CodeMajorAtIndex(codes, years, region, variable, 0, a, a);
    CodeMajorAtIndex(codes, years, region, variable, 1, a, n + a);
    CodeMajorAtIndex(codes, years, region, variable, 2, a, 2 * n + a);
  }

  lemma ThreeCodeLength(codes: seq<string>, years: seq<int>, region: string, variable: string)
    requires |codes| == 3
    ensures |Refs(region, variable, MonthMajor(codes, years))| == 3 * |years|
  {
    ProductLength(codes, years, MonthFirst());
  }

  /** `CodeMajorAt` with the position given outright. */
  lemma CodeMajorAtIndex(codes: seq<string>, years: seq<int>, region: string, variable: string, k: nat, a: nat, idx: nat)
    requires k < |codes| && a < |years| && idx == k * |years| + a
    ensures idx < |Refs(region, variable, MonthMajor(codes, years))|
    ensures Refs(region, variable, MonthMajor(codes, years))[idx] == ArchiveRef(region, variable, Key(years[a], codes[k]))
  {
    CodeMajorAt(codes, years, region, variable, k, a);
  }

  lemma WinterCodes()
    ensures SeasonMonths("winter") == Some(["DEC", "JAN", "FEB"])
    ensures Codes(["DEC", "JAN", "FEB"]) == ["12", "01", "02"]
  {
    MonthTables();
    assert MonthAbbrevs[11] == "DEC" && MonthAbbrevs[0] == "JAN" && MonthAbbrevs[1] == "FEB";
    assert MonthCode("DEC") == "12" && MonthCode("JAN") == "01" && MonthCode("FEB") == "02";
  }

  /** Each named season is three consecutive calendar months, and the four seasons
      together cover every month once. */
  lemma SeasonsPartitionYear()
    ensures forall s :: s in ["winter", "spring", "summer", "fall"] ==>
              SeasonMonths(s).Some? && |SeasonMonths(s).value| == 3
    ensures forall m :: m in MonthAbbrevs <==>
              (m in SeasonMonths("winter").value || m in SeasonMonths("spring").value ||
               m in SeasonMonths("summer").value || m in SeasonMonths("fall").value)
    ensures forall s :: s !in ["winter", "spring", "summer", "fall"] ==> SeasonMonths(s).None?
  {
  }

  // ---------------------------------------------------------------------
  // Pooling
  // ---------------------------------------------------------------------

  /** The exceptions the comparison raises: a missing archive (`np.load`), an
      empty list handed to `np.concatenate`, or an empty pooled array handed to
      `np.percentile` by the histogram. */
  datatype Failure = MissingArchive(source: Source, ref: ArchiveRef) | NothingToConcatenate | EmptyPercentile(source: Source)

  /** `giss_values_list` and `imerg_values_list`. */
  datatype Lists = Lists(giss: seq<seq<Cell>>, imerg: seq<seq<Cell>>)

  /** The two pooled arrays with missing values removed. */
  datatype Pooled = Pooled(giss: seq<real>, imerg: seq<real>)

  predicate Available(r: ArchiveRef, giss: Store, imerg: Store)
  {
    r in giss && r in imerg
  }

  /** The reads in order; each archive is loaded from GISS and then from IMERG,
      and the first absent file raises. */
  function Loaded(refs: seq<ArchiveRef>, giss: Store, imerg: Store): Result<Lists, Failure>
  {
    if refs == [] then Ok(Lists([], []))
    else
      match Loaded(refs[..|refs| - 1], giss, imerg)
      case Err(e) => Err(e)
      case Ok(lists) =>
        var p := refs[|refs| - 1];
        if p !in giss then Err(MissingArchive(Giss, p))
        else if p !in imerg then Err(MissingArchive(Imerg, p))
        else Ok(Lists(lists.giss + [giss[p]], lists.imerg + [imerg[p]]))
  }

  /** The contents of `refs` in one folder, in order. */
  function Loads(store: Store, refs: seq<ArchiveRef>): (r: seq<seq<Cell>>)
    requires forall k :: 0 <= k < |refs| ==> refs[k] in store
    ensures |r| == |refs|
    ensures forall k :: 0 <= k < |refs| ==> r[k] == store[refs[k]]
  {
    seq(|refs|, k requires 0 <= k < |refs| => store[refs[k]])
  }

  /** `np.concatenate` of each list, then `x[~np.isnan(x)]`. */
  function Pool(refs: seq<ArchiveRef>, giss: Store, imerg: Store): Result<Pooled, Failure>
  {
    match Loaded(refs, giss, imerg)
    case Err(e) => Err(e)
    case Ok(lists) =>
      if refs == [] then Err(NothingToConcatenate)
      else Ok(Pooled(Present(Concat(lists.giss)), Present(Concat(lists.imerg))))
  }

  /** All reads succeed iff every archive exists in both folders; then the lists hold
      the same-named archive of each folder, in read order. */
  lemma {:induction false} LoadedSpec(refs: seq<ArchiveRef>, giss: Store, imerg: Store)
    ensures Loaded(refs, giss, imerg).Ok? <==> forall k :: 0 <= k < |refs| ==> Available(refs[k], giss, imerg)
    ensures (forall k :: 0 <= k < |refs| ==> Available(refs[k], giss, imerg)) ==>
              Loaded(refs, giss, imerg) == Ok(Lists(Loads(giss, refs), Loads(imerg, refs)))
  {
    if refs != [] {
      var init := refs[..|refs| - 1];
      LoadedSpec(init, giss, imerg);
      assert forall k :: 0 <= k < |init| ==> init[k] == refs[k];
      if forall k :: 0 <= k < |refs| ==> Available(refs[k], giss, imerg) {
        assert Loads(giss, refs) == Loads(giss, init) + [giss[refs[|refs| - 1]]];
        assert Loads(imerg, refs) == Loads(imerg, init) + [imerg[refs[|refs| - 1]]];
      }
    }
  }

  /** The first archive missing from either folder is the one reported, GISS being read first. */
  lemma {:induction false} LoadedFirstMissing(refs: seq<ArchiveRef>, giss: Store, imerg: Store, n: nat)
    requires n < |refs| && !Available(refs[n], giss, imerg)
    requires forall k :: 0 <= k < n ==> Available(refs[k], giss, imerg)
    ensures Loaded(refs, giss, imerg) == Err(MissingArchive(if refs[n] !in giss then Giss else Imerg, refs[n]))
  {
    var init := refs[..|refs| - 1];
    if n == |refs| - 1 {
      LoadedSpec(init, giss, imerg);
    } else {
      LoadedFirstMissing(init, giss, imerg, n);
    }
  }

  /** Once a read has failed, the later reads do not happen. */
  lemma {:induction false} LoadedStops(refs: seq<ArchiveRef>, n: nat, giss: Store, imerg: Store)
    requires n <= |refs| && Loaded(refs[..n], giss, imerg).Err?
    ensures Loaded(refs, giss, imerg) == Loaded(refs[..n], giss, imerg)
    decreases |refs| - n
  {
    if n < |refs| {
      assert refs[..n + 1][..n] == refs[..n];
      LoadedStops(refs, n + 1, giss, imerg);
    } else {
      assert refs[..n] == refs;
    }
  }

  lemma LoadsAppend(store: Store, a: seq<ArchiveRef>, b: seq<ArchiveRef>)
    requires forall k :: 0 <= k < |a| ==> a[k] in store
    requires forall k :: 0 <= k < |b| ==> b[k] in store
    ensures forall k :: 0 <= k < |a + b| ==> (a + b)[k] in store
    ensures Loads(store, a + b) == Loads(store, a) + Loads(store, b)
  {
    assert forall k :: 0 <= k < |a + b| ==> (a + b)[k] == if k < |a| then a[k] else b[k - |a|];
  }

  /** The pooled arrays exist iff there is something to read and every archive is in
      both folders; they then hold exactly the present values of the archives, in read order. */
  lemma PoolSpec(refs: seq<ArchiveRef>, giss: Store, imerg: Store)
    ensures Pool(refs, giss, imerg).Ok? <==>
              refs != [] && forall k :: 0 <= k < |refs| ==> Available(refs[k], giss, imerg)
    ensures refs == [] ==> Pool(refs, giss, imerg) == Err(NothingToConcatenate)
    ensures Pool(refs, giss, imerg).Ok? ==>
              (forall k :: 0 <= k < |refs| ==> Available(refs[k], giss, imerg)) &&
              Pool(refs, giss, imerg).value == Pooled(Present(Concat(Loads(giss, refs))), Present(Concat(Loads(imerg, refs))))
  {
    LoadedSpec(refs, giss, imerg);
  }

  /** A value is pooled iff it is present in one of the archives read. */
  lemma PoolMembers(refs: seq<ArchiveRef>, giss: Store, imerg: Store, v: real)
    requires Pool(refs, giss, imerg).Ok?
    ensures forall k :: 0 <= k < |refs| ==> Available(refs[k], giss, imerg)
    ensures v in Pool(refs, giss, imerg).value.giss <==> exists k :: 0 <= k < |refs| && refs[k] in giss && Some(v) in giss[refs[k]]
    ensures v in Pool(refs, giss, imerg).value.imerg <==> exists k :: 0 <= k < |refs| && refs[k] in imerg && Some(v) in imerg[refs[k]]
  {
    PoolSpec(refs, giss, imerg);
    var gs := Loads(giss, refs);
    var ms := Loads(imerg, refs);
    PresentMembers(Concat(gs), v);
    PresentMembers(Concat(ms), v);
    ConcatMembers(gs, Some(v));
    ConcatMembers(ms, Some(v));
  }

  /** Pooling keeps read order: reading `a` then `b` pools `a`'s values followed by `b`'s. */
  lemma PoolAppend(a: seq<ArchiveRef>, b: seq<ArchiveRef>, giss: Store, imerg: Store)
    requires Pool(a, giss, imerg).Ok? && Pool(b, giss, imerg).Ok?
    ensures Pool(a + b, giss, imerg).Ok?
    ensures Pool(a + b, giss, imerg).value.giss == Pool(a, giss, imerg).value.giss + Pool(b, giss, imerg).value.giss
    ensures Pool(a + b, giss, imerg).value.imerg == Pool(a, giss, imerg).value.imerg + Pool(b, giss, imerg).value.imerg
  {
    PoolSpec(a, giss, imerg);
    PoolSpec(b, giss, imerg);
    var ab := a + b;
    assert forall k :: 0 <= k < |ab| ==> Available(ab[k], giss, imerg) by {
      forall k | 0 <= k < |ab| ensures Available(ab[k], giss, imerg) {
        if k < |a| { assert ab[k] == a[k]; } else { assert ab[k] == b[k - |a|]; }
      }
    }
    PoolSpec(ab, giss, imerg);
    LoadsAppend(giss, a, b);
    LoadsAppend(imerg, a, b);
    ConcatAppend(Loads(giss, a), Loads(giss, b));
    ConcatAppend(Loads(imerg, a), Loads(imerg, b));
    PresentAppend(Concat(Loads(giss, a)), Concat(Loads(giss, b)));
    PresentAppend(Concat(Loads(imerg, a)), Concat(Loads(imerg, b)));
  }

  /** The two appends and the two concatenations of one plot. */
  method PoolUnit(refs: seq<ArchiveRef>, giss: Store, imerg: Store) returns (r: Result<Pooled, Failure>)
    ensures r == Pool(refs, giss, imerg)
  {
    var gissList: seq<seq<Cell>> := [];
    var imergList: seq<seq<Cell>> := [];
    for k := 0 to |refs|
      invariant Loaded(refs[..k], giss, imerg) == Ok(Lists(gissList, imergList))
    {
      var ref := refs[k];
      assert refs[..k + 1][..k] == refs[..k];
      if ref !in giss {
        LoadedStops(refs, k + 1, giss, imerg);
        return Err(MissingArchive(Giss, ref));
      }
      gissList := gissList + [giss[ref]];
      if ref !in imerg {
        LoadedStops(refs, k + 1, giss, imerg);
        return Err(MissingArchive(Imerg, ref));
      }
      imergList := imergList + [imerg[ref]];
    }
    assert refs[..|refs|] == refs;
    if |refs| == 0 {
      return Err(NothingToConcatenate);
    }
    var gissValues := Concat(gissList);
    var imergValues := Concat(imergList);
    r := Ok(Pooled(Present(gissValues), Present(imergValues)));
  }

  // ---------------------------------------------------------------------
  // Running a plan
  // ---------------------------------------------------------------------

  /** The histogram and table written for one plot, with the pooled data they show. */
  datatype Report = Report(title: string, histogramFile: string, tableFile: string, giss: seq<real>, imerg: seq<real>)

  /** The plots made so far, and the exception that ended the call early, if any. */
  datatype Outcome = Outcome(reports: seq<Report>, failure: Option<Failure>)

  function ReportOf(u: Unit, p: Pooled): Report
  {
    Report(u.title, u.stem + "_histogram.png", u.stem + "_table.png", p.giss, p.imerg)
  }

  /** One plot: pool the unit's archives, then `histogramGISSIMERG`, whose
      percentiles of an empty array raise (the GISS array is summarised first);
      `statsTableGISSIMERG` does nothing. */
  function Plot(u: Unit, giss: Store, imerg: Store): Result<Report, Failure>
  {
    match Pool(u.refs, giss, imerg)
    case Err(e) => Err(e)
    case Ok(p) =>
      if p.giss == [] then Err(EmptyPercentile(Giss))
      else if p.imerg == [] then Err(EmptyPercentile(Imerg))
      else Ok(ReportOf(u, p))
  }

  /** Some archive of `refs` in `store` holds a present value. */
  ghost predicate SomePresent(store: Store, refs: seq<ArchiveRef>)
  {
    exists k, v :: 0 <= k < |refs| && refs[k] in store && Some(v) in store[refs[k]]
  }

  /** A pooled array is non-empty iff one of the archives read holds a present value. */
  lemma PoolNonEmpty(refs: seq<ArchiveRef>, giss: Store, imerg: Store)
    requires Pool(refs, giss, imerg).Ok?
    ensures Pool(refs, giss, imerg).value.giss != [] <==> SomePresent(giss, refs)
    ensures Pool(refs, giss, imerg).value.imerg != [] <==> SomePresent(imerg, refs)
  {
    var p := Pool(refs, giss, imerg).value;
    if p.giss != [] {
      PoolMembers(refs, giss, imerg, p.giss[0]);
    }
    if p.imerg != [] {
      PoolMembers(refs, giss, imerg, p.imerg[0]);
    }
    if SomePresent(giss, refs) {
      var k, v :| 0 <= k < |refs| && refs[k] in giss && Some(v) in giss[refs[k]];
      PoolMembers(refs, giss, imerg, v);
    }
    if SomePresent(imerg, refs) {
      var k, v :| 0 <= k < |refs| && refs[k] in imerg && Some(v) in imerg[refs[k]];
      PoolMembers(refs, giss, imerg, v);
    }
  }

  /** A plot is drawn iff every archive loads and each folder's archives hold a
      present value; it then shows the two pooled arrays. A pool that fails raises
      its own error, and an all-missing GISS (then IMERG) side raises at the percentile. */
  lemma PlotSpec(u: Unit, giss: Store, imerg: Store)
    ensures Plot(u, giss, imerg).Ok? <==>
              Pool(u.refs, giss, imerg).Ok? && SomePresent(giss, u.refs) && SomePresent(imerg, u.refs)
    ensures Plot(u, giss, imerg).Ok? ==> Plot(u, giss, imerg).value == ReportOf(u, Pool(u.refs, giss, imerg).value)
    ensures Pool(u.refs, giss, imerg).Err? ==> Plot(u, giss, imerg) == Err(Pool(u.refs, giss, imerg).error)
    ensures Pool(u.refs, giss, imerg).Ok? && !SomePresent(giss, u.refs) ==>
              Plot(u, giss, imerg) == Err(EmptyPercentile(Giss))
    ensures Pool(u.refs, giss, imerg).Ok? && SomePresent(giss, u.refs) && !SomePresent(imerg, u.refs) ==>
              Plot(u, giss, imerg) == Err(EmptyPercentile(Imerg))
  {
    if Pool(u.refs, giss, imerg).Ok? {
      PoolNonEmpty(u.refs, giss, imerg);
    }
  }

  /** The plots of a plan in order; the first failing plot ends the call. */
  function Execute(units: seq<Unit>, giss: Store, imerg: Store): Outcome
  {
    if units == [] then Outcome([], None)
    else
      var prior := Execute(units[..|units| - 1], giss, imerg);
      if prior.failure.Some? then prior
      else
        match Plot(units[|units| - 1], giss, imerg)
        case Err(e) => Outcome(prior.reports, Some(e))
        case Ok(report) => Outcome(prior.reports + [report], None)
  }

  /** `b` runs only if `a` raised nothing. */
  function Follow(a: Outcome, b: Outcome): (r: Outcome)
    ensures a.failure.Some? ==> r == a
    ensures a.failure.None? ==> r.reports == a.reports + b.reports && r.failure == b.failure
  {
    if a.failure.Some? then a else Outcome(a.reports + b.reports, b.failure)
  }

  /** The reports are those of the leading plots that succeed, in plan order;
      the call stops at the first plot that fails, with that plot's failure. */
  lemma {:induction false} ExecuteSpec(units: seq<Unit>, giss: Store, imerg: Store)
    ensures var o := Execute(units, giss, imerg);
              |o.reports| <= |units| &&
              (forall k :: 0 <= k < |o.reports| ==>
                 Plot(units[k], giss, imerg).Ok? && o.reports[k] == Plot(units[k], giss, imerg).value) &&
              (o.failure.None? <==> |o.reports| == |units|) &&
              (o.failure.Some? ==> Plot(units[|o.reports|], giss, imerg) == Err(o.failure.value))
  {
    if units != [] {
      var init := units[..|units| - 1];
      ExecuteSpec(init, giss, imerg);
      assert forall k :: 0 <= k < |init| ==> init[k] == units[k];
    }
  }

  /** Running two plans one after the other is running their concatenation. */
  lemma {:induction false} ExecuteAppend(a: seq<Unit>, b: seq<Unit>, giss: Store, imerg: Store)
    ensures Execute(a + b, giss, imerg) == Follow(Execute(a, giss, imerg), Execute(b, giss, imerg))
    decreases |b|
  {
    if b == [] {
      assert a + b == a;
    } else {
      var b' := b[..|b| - 1];
      assert (a + b)[..|a + b| - 1] == a + b';
      ExecuteAppend(a, b', giss, imerg);
      var pa := Execute(a, giss, imerg);
      if pa.failure.None? && Execute(b', giss, imerg).failure.None? {
        match Plot(b[|b| - 1], giss, imerg)
        case Err(e) =>
        case Ok(report) =>
          assert pa.reports + Execute(b', giss, imerg).reports + [report] ==
                 pa.reports + (Execute(b', giss, imerg).reports + [report]);
      }
    }
  }

  lemma {:induction false} ExecuteStops(units: seq<Unit>, n: nat, giss: Store, imerg: Store)
    requires n <= |units| && Execute(units[..n], giss, imerg).failure.Some?
    ensures Execute(units, giss, imerg) == Execute(units[..n], giss, imerg)
    decreases |units| - n
  {
    if n < |units| {
      assert units[..n + 1][..n] == units[..n];
      ExecuteStops(units, n + 1, giss, imerg);
    } else {
      assert units[..n] == units;
    }
  }

  /** The loop over the plots of a plan. */
  method RunPlan(units: seq<Unit>, giss: Store, imerg: Store) returns (o: Outcome)
    ensures o == Execute(units, giss, imerg)
  {
    o := Outcome([], None);
    for n := 0 to |units|
      invariant o == Execute(units[..n], giss, imerg) && o.failure.None?
    {
      var u := units[n];
      assert units[..n + 1][..n] == units[..n];
      var pooled := PoolUnit(u.refs, giss, imerg);
      if pooled.Err? {
        o := Outcome(o.reports, Some(pooled.error));
        ExecuteStops(units, n + 1, giss, imerg);
        return;
      }
      if pooled.value.giss == [] || pooled.value.imerg == [] {
        o := Outcome(o.reports, Some(EmptyPercentile(if pooled.value.giss == [] then Giss else Imerg)));
        ExecuteStops(units, n + 1, giss, imerg);
        return;
      }
      o := Outcome(o.reports + [ReportOf(u, pooled.value)], None);
    }
    assert units[..|units|] == units;
  }

  // ---------------------------------------------------------------------
  // createCompareViz
  // ---------------------------------------------------------------------

  /** Why the call returns before reading anything. */
  datatype Rejection = InvalidMonthList | UnknownSeason | UnknownMode

  datatype Verdict = Rejected(why: Rejection) | Finished(outcome: Outcome)

  predicate AllAbbrevs(months: seq<string>)
  {
    forall i :: 0 <= i < |months| ==> months[i] in MonthAbbrevs
  }

  /** `season` mode: a named season, a validated custom list, or all four seasons in turn. */
  function SeasonMode(season: string, months: seq<string>, years: seq<int>, regions: seq<string>, variable: string,
                      giss: Store, imerg: Store): Verdict
  {
    if SeasonMonths(season).Some? then
      Finished(Execute(SeasonPlan(season, SeasonMonths(season).value, years, regions, variable), giss, imerg))
    else if season == "custom" then
      if AllAbbrevs(months) then Finished(Execute(SeasonPlan(season, months, years, regions, variable), giss, imerg))
      else Rejected(InvalidMonthList)
    else if season == "all" then
      var winter := Execute(SeasonPlan("winter", SeasonMonths("winter").value, years, regions, variable), giss, imerg);
      var spring := Execute(SeasonPlan("spring", SeasonMonths("spring").value, years, regions, variable), giss, imerg);
      var summer := Execute(SeasonPlan("summer", SeasonMonths("summer").value, years, regions, variable), giss, imerg);
      var fall := Execute(SeasonPlan("fall", SeasonMonths("fall").value, years, regions, variable), giss, imerg);
      Finished(Follow(Follow(Follow(winter, spring), summer), fall))
    else Rejected(UnknownSeason)
  }

  /** `createCompareViz`. */
  function CompareViz(mode: string, years: seq<int>, regions: seq<string>, variable: string,
                      season: string, months: seq<string>, giss: Store, imerg: Store): Verdict
  {
    if mode == "single-year" then Finished(Execute(SingleYearPlan(years, regions, variable), giss, imerg))
    else if mode == "years" then Finished(Execute(YearsPlan(years, regions, variable), giss, imerg))
    else if mode == "month" then Finished(Execute(MonthPlan(years, regions, months, variable), giss, imerg))
    else if mode == "season" then SeasonMode(season, months, years, regions, variable, giss, imerg)
    else Rejected(UnknownMode)
  }

  /** The call returns early exactly for an unknown mode, an unknown season, or a custom
      list with a string outside the twelve abbreviations; it then reads no file, so
      the result does not depend on either folder. */
  lemma RejectionRules(mode: string, years: seq<int>, regions: seq<string>, variable: string,
                       season: string, months: seq<string>, giss: Store, imerg: Store, giss': Store, imerg': Store)
    ensures var v := CompareViz(mode, years, regions, variable, season, months, giss, imerg);
              (v == Rejected(UnknownMode) <==> mode !in ["single-year", "years", "month", "season"]) &&
              (v == Rejected(UnknownSeason) <==>
                 mode == "season" && season !in ["winter", "spring", "summer", "fall", "custom", "all"]) &&
              (v == Rejected(InvalidMonthList) <==>
                 mode == "season" && season == "custom" && exists i :: 0 <= i < |months| && months[i] !in MonthAbbrevs)
    ensures CompareViz(mode, years, regions, variable, season, months, giss, imerg).Rejected? ==>
              CompareViz(mode, years, regions, variable, season, months, giss', imerg') ==
              CompareViz(mode, years, regions, variable, season, months, giss, imerg)
  {
    SeasonsPartitionYear();
  }

  lemma SeasonModeAll(months: seq<string>, years: seq<int>, regions: seq<string>, variable: string,
                      giss: Store, imerg: Store)
    ensures SeasonMode("all", months, years, regions, variable, giss, imerg) ==
              Finished(Follow(Follow(Follow(
                Execute(SeasonPlan("winter", ["DEC", "JAN", "FEB"], years, regions, variable), giss, imerg),
                Execute(SeasonPlan("spring", ["MAR", "APR", "MAY"], years, regions, variable), giss, imerg)),
                Execute(SeasonPlan("summer", ["JUN", "JUL", "AUG"], years, regions, variable), giss, imerg)),
                Execute(SeasonPlan("fall", ["SEP", "OCT", "NOV"], years, regions, variable), giss, imerg)))
  {
    assert SeasonMonths("all") == None && "all" != "custom";
    assert SeasonMonths("winter") == Some(["DEC", "JAN", "FEB"]);
    assert SeasonMonths("spring") == Some(["MAR", "APR", "MAY"]);
    assert SeasonMonths("summer") == Some(["JUN", "JUL", "AUG"]);
    assert SeasonMonths("fall") == Some(["SEP", "OCT", "NOV"]);
  }

  /** `all` is winter, spring, summer and fall run in that order: one run over the four
      season plans laid end to end. */
  lemma AllSeasonsInOrder(months: seq<string>, years: seq<int>, regions: seq<string>, variable: string,
                          giss: Store, imerg: Store)
    ensures SeasonMode("all", months, years, regions, variable, giss, imerg) ==
              Finished(Execute(SeasonPlan("winter", ["DEC", "JAN", "FEB"], years, regions, variable) +
                               SeasonPlan("spring", ["MAR", "APR", "MAY"], years, regions, variable) +
                               SeasonPlan("summer", ["JUN", "JUL", "AUG"], years, regions, variable) +
                               SeasonPlan("fall", ["SEP", "OCT", "NOV"], years, regions, variable), giss, imerg))
  {
    var w := SeasonPlan("winter", ["DEC", "JAN", "FEB"], years, regions, variable);
    var sp := SeasonPlan("spring", ["MAR", "APR", "MAY"], years, regions, variable);
    var su := SeasonPlan("summer", ["JUN", "JUL", "AUG"], years, regions, variable);
    var f := SeasonPlan("fall", ["SEP", "OCT", "NOV"], years, regions, variable);
    SeasonModeAll(months, years, regions, variable, giss, imerg);
    ExecuteAppend(w, sp, giss, imerg);
    ExecuteAppend(w + sp, su, giss, imerg);
    ExecuteAppend(w + sp + su, f, giss, imerg);
  }

  /** A plan with no year to read fails at the first concatenation, before any plot is made. */
  lemma NoYearsNoPlots(mode: string, regions: seq<string>, variable: string, season: string, months: seq<string>,
                       giss: Store, imerg: Store)
    requires mode in ["years", "month"] && |regions| > 0
    requires mode == "month" ==> |ExpandMonths(months)| > 0
    ensures CompareViz(mode, [], regions, variable, season, months, giss, imerg) ==
              Finished(Outcome([], Some(NothingToConcatenate)))
  {
    var units := if mode == "years" then YearsPlan([], regions, variable) else MonthPlan([], regions, months, variable);
    if mode == "month" {
      ProductAt(regions, ExpandMonths(months), MonthMaker([], variable), 0, 0);
      ProductLength([MonthCode(ExpandMonths(months)[0])], [], MonthFirst());
    }
    ExecuteSpec(units, giss, imerg);
    PoolSpec(units[0].refs, giss, imerg);
  }

  /** The method form of `createCompareViz`: one branch per mode. */
  method CreateCompareViz(mode: string, years: seq<int>, regions: seq<string>, variable: string,
                          season: string, months: seq<string>, giss: Store, imerg: Store) returns (v: Verdict)
    ensures v == CompareViz(mode, years, regions, variable, season, months, giss, imerg)
  {
    if mode == "single-year" {
      var o := RunPlan(SingleYearPlan(years, regions, variable), giss, imerg);
      return Finished(o);
    } else if mode == "years" {
      var o := RunPlan(YearsPlan(years, regions, variable), giss, imerg);
      return Finished(o);
    } else if mode == "month" {
      var o := RunPlan(MonthPlan(years, regions, months, variable), giss, imerg);
      return Finished(o);
    } else if mode == "season" {
      v := RunSeasonMode(season, months, years, regions, variable, giss, imerg);
    } else {
      v := Rejected(UnknownMode);
    }
  }

  /** The `season` branch: `months_list` and `chosen_season` are reassigned step by
      step and `season_mode()` is called once per season. */
  method RunSeasonMode(season: string, months: seq<string>, years: seq<int>, regions: seq<string>, variable: string,
                       giss: Store, imerg: Store) returns (v: Verdict)
    ensures v == SeasonMode(season, months, years, regions, variable, giss, imerg)
  {
    var chosenSeason := season;
    var monthsList := months;
    if chosenSeason == "winter" {
      monthsList := ["DEC", "JAN", "FEB"];
    } else if chosenSeason == "spring" {
      monthsList := ["MAR", "APR", "MAY"];
    } else if chosenSeason == "summer" {
      monthsList := ["JUN", "JUL", "AUG"];
    } else if chosenSeason == "fall" {
      monthsList := ["SEP", "OCT", "NOV"];
    } else if chosenSeason == "custom" {
      for i := 0 to |monthsList|
        invariant forall k :: 0 <= k < i ==> monthsList[k] in MonthAbbrevs
      {
        if monthsList[i] !in MonthAbbrevs {
          return Rejected(InvalidMonthList);
        }
      }
    } else if chosenSeason != "all" {
      return Rejected(UnknownSeason);
    }
    if chosenSeason != "all" {
      var o := RunPlan(SeasonPlan(chosenSeason, monthsList, years, regions, variable), giss, imerg);
      return Finished(o);
    }
    var o := RunAllSeasons(years, regions, variable, giss, imerg);
    SeasonModeAll(months, years, regions, variable, giss, imerg);
    return Finished(o);
  }

  /** `chosen_season == "all"`: four `season_mode()` calls, the season and its months
      reassigned before each; an exception in one season ends the call. */
  method RunAllSeasons(years: seq<int>, regions: seq<string>, variable: string, giss: Store, imerg: Store)
    returns (o: Outcome)
    ensures o == Follow(Follow(Follow(
                   Execute(SeasonPlan("winter", ["DEC", "JAN", "FEB"], years, regions, variable), giss, imerg),
                   Execute(SeasonPlan("spring", ["MAR", "APR", "MAY"], years, regions, variable), giss, imerg)),
                   Execute(SeasonPlan("summer", ["JUN", "JUL", "AUG"], years, regions, variable), giss, imerg)),
                   Execute(SeasonPlan("fall", ["SEP", "OCT", "NOV"], years, regions, variable), giss, imerg))
  {
    var chosenSeason := "winter";
    var monthsList := ["DEC", "JAN", "FEB"];
    o := RunPlan(SeasonPlan(chosenSeason, monthsList, years, regions, variable), giss, imerg);
    if o.failure.Some? {
      return;
    }
    chosenSeason := "spring";
    monthsList := ["MAR", "APR", "MAY"];
    var next := RunPlan(SeasonPlan(chosenSeason, monthsList, years, regions, variable), giss, imerg);
    o := Follow(o, next);
    if o.failure.Some? {
      return;
    }
    chosenSeason := "summer";
    monthsList := ["JUN", "JUL", "AUG"];
    next := RunPlan(SeasonPlan(chosenSeason, monthsList, years, regions, variable), giss, imerg);
    o := Follow(o, next);
    if o.failure.Some? {
      return;
    }
    chosenSeason := "fall";
    monthsList := ["SEP", "OCT", "NOV"];
    next := RunPlan(SeasonPlan(chosenSeason, monthsList, years, regions, variable), giss, imerg);
    o := Follow(o, next);
  }

  // ---------------------------------------------------------------------
  // The writers' names are the reader's names
  // ---------------------------------------------------------------------

  /** The archive the GISS ingest writes for month `m` of a year and region lies at
      the path this stage reads for that month (as a two-digit month or as an
      abbreviation), given the output variable name; loading it yields the
      flattened masked cube. */
  lemma GissArchiveIsRead(year: int, region: string, variable: string, mask: Option<Mask>,
                          folder: GissIngest.Folder, m: nat, lats: seq<real>, lons: seq<real>)
    requires m < 12 && GissIngest.FolderOnGrid(folder, lats, lons) && MaskOptionFits(mask, lats, lons)
    requires GissIngest.InputFileName(MonthAbbrevs[m], year) in folder
    ensures var ws := GissIngest.MonthWrites(year, region, variable, mask, folder, m, lats, lons);
              var key := Key(year, MonthStrings[m]);
              |ws| == 2 && ws[1].artifact.CubeArchive? &&
              ArchivePath(ws[1].yearFolder, ws[1].region, ws[1].fileName) ==
                PathOf(ArchiveRef(region, GissIngest.OutputVariable(variable), key)) &&
              key == Key(year, MonthCode(MonthAbbrevs[m])) &&
              LoadedValues(ws[1].artifact) ==
                FlattenSteps(MaskSteps(mask, folder[GissIngest.InputFileName(MonthAbbrevs[m], year)].steps, lats, lons))
  {
    MonthTables();
    MonthCodeSpec(MonthAbbrevs[m]);
  }
}
