/** The IMERG ingest (`process_nc_files` in saveIMERGfiles.py): for every
    year folder, group the `.nc4` files by the year and month written in
    their names, then for every region and every month keep the files on the
    resampling cadence, regrid, mask, convert units, and write a flat archive
    of all values and the time mean of the month. */
module ImergIngest {
  import opened Common
  import opened Grids
  import opened RegionMasks
  import opened Naming
  import opened Outputs

  /** The first time stamp of a file, as `cftime` or pandas reads it. */
  datatype Timestamp = Timestamp(year: int, month: int, day: int, hour: int, minute: int)

  /** One entry of a year folder. `native` is the chosen variable on the
      file's own grid; `regridded` is the same variable after nearest-neighbour
      interpolation onto the regrid file's grid. */
  datatype DataFile = DataFile(name: string, times: seq<Timestamp>, native: seq<Grid>, regridded: seq<Grid>)

  datatype MonthKey = MonthKey(year: int, month: int)

  /** The arguments of `process_nc_files` that steer a run. `regridFile` says
      whether a regrid file path was given; `resampleRate` 0 stands for `None`. */
  datatype Config = Config(variable: string, regrid: bool, regridFile: bool, resample: bool,
                           resampleRate: int, unitFactor: real)

  /** The exceptions that end a run. */
  datatype Failure =
    | UnparsableDate(file: string)        // `pd.to_datetime` rejects the 8-digit token
    | NoTimeStep(file: string)            // `ds['time'].values[0]` on an empty time axis
    | RegridGridUnbound(file: string)     // `regrid_dataset` used but never assigned
    | MaskUnavailable(reason: MaskFailure)
    | NothingToConcatenate(key: MonthKey) // `np.concatenate([])`
    | MissingYearFolder(year: int)        // `os.listdir` on a missing folder

  // ---------------------------------------------------------------------
  // The date in a file name
  // ---------------------------------------------------------------------

  /** Eight decimal digits start at position i of s. */
  predicate EightDigitsAt(s: string, i: nat)
  {
    i + 8 <= |s| && AllDigits(s[i..i + 8])
  }

  /** Where `re.search(r"\d{8}", s[from..])` matches: the leftmost window. */
  function FindDigitRun(s: string, from: nat): (r: Option<nat>)
    requires from <= |s|
    ensures r.Some? ==> from <= r.value && EightDigitsAt(s, r.value)
    ensures r.Some? ==> forall k :: from <= k < r.value ==> !EightDigitsAt(s, k)
    ensures r.None? ==> forall k :: from <= k <= |s| ==> !EightDigitsAt(s, k)
    decreases |s| - from
  {
    if from + 8 > |s| then None
    else if EightDigitsAt(s, from) then Some(from)
    else FindDigitRun(s, from + 1)
  }

  /** The search finds exactly the leftmost window of eight digits. */
  lemma FindDigitRunLeftmost(s: string, p: nat)
    requires EightDigitsAt(s, p)
    requires forall k :: 0 <= k < p ==> !EightDigitsAt(s, k)
    ensures FindDigitRun(s, 0) == Some(p)
  {
    var r := FindDigitRun(s, 0);
    assert r.Some?;
    assert !(r.value < p);
    assert !(p < r.value);
  }

  predicate IsLeap(y: int)
  {
    (y % 4 == 0 && y % 100 != 0) || y % 400 == 0
  }

  function DaysInMonth(y: int, m: int): int
    requires 1 <= m <= 12
  {
    if m == 2 then (if IsLeap(y) then 29 else 28)
    else if m == 4 || m == 6 || m == 9 || m == 11 then 30
    else 31
  }

  predicate IsCalendarDate(y: int, m: int, d: int)
  {
    1 <= m <= 12 && 1 <= d <= DaysInMonth(y, m)
  }

  /** The days a pandas `Timestamp` (nanoseconds since 1970) can hold:
      1677-09-22 up to 2262-04-11. */
  predicate InTimestampRange(y: int, m: int, d: int)
  {
    (y > 1677 || (y == 1677 && (m > 9 || (m == 9 && d >= 22)))) &&
    (y < 2262 || (y == 2262 && (m < 4 || (m == 4 && d <= 11))))
  }

  datatype DateToken = NoDate | Dated(key: MonthKey) | BadDate(token: string)

  /** `extract_year_month`: the first eight-digit run read as `%Y%m%d`.
      A run that is not a date pandas can hold raises (`BadDate`). */
  function ExtractYearMonth(name: string): (r: DateToken)
    ensures r.Dated? ==> 1 <= r.key.month <= 12 && 1677 <= r.key.year <= 2262
  {
    match FindDigitRun(name, 0)
    case None => NoDate
    case Some(i) =>
      var token := name[i..i + 8];
      var y := ParseNat(token[..4]);
      var m := ParseNat(token[4..6]);
      var d := ParseNat(token[6..]);
      if IsCalendarDate(y, m, d) && InTimestampRange(y, m, d) then Dated(MonthKey(y, m))
      else BadDate(token)
  }

  /** A name yields no date exactly when it holds no run of eight digits. */
  lemma ExtractYearMonthNoDate(name: string)
    ensures ExtractYearMonth(name).NoDate? <==> forall k :: 0 <= k <= |name| ==> !EightDigitsAt(name, k)
  {
  }

  /** The eight characters `YYYYMMDD` of a date. */
  function DateDigits(y: nat, m: nat, d: nat): string
    requires 1000 <= y <= 9999 && m < 100 && d < 100
  {
    NatDecimal(y) + TwoDigits(m) + TwoDigits(d)
  }

  /** A name `prefix + YYYYMMDD + suffix` whose prefix holds no digit run of
      its own and does not end in a digit yields the year and month of the
      date: the naming convention of the IMERG half-hourly files. */
  lemma ExtractYearMonthOfDate(prefix: string, y: nat, m: nat, d: nat, suffix: string)
    requires IsCalendarDate(y, m, d) && InTimestampRange(y, m, d)
    requires forall k :: 0 <= k < |prefix| ==> !EightDigitsAt(prefix, k)
    requires prefix == [] || !IsDigit(prefix[|prefix| - 1])
    ensures ExtractYearMonth(prefix + DateDigits(y, m, d) + suffix) == Dated(MonthKey(y, m))
  {
    var date := DateDigits(y, m, d);
    var name := prefix + date + suffix;
    var p := |prefix|;
    DateDigitsRead(y, m, d);
    DateAfterPrefix(prefix, date, suffix);
    FindDigitRunLeftmost(name, p);
    assert name[p..p + 8] == date;
  }

  /** The eight characters of a date are digits that read back as the date. */
  lemma DateDigitsRead(y: nat, m: nat, d: nat)
    requires IsCalendarDate(y, m, d) && InTimestampRange(y, m, d)
    ensures var date := DateDigits(y, m, d);
              |date| == 8 && AllDigits(date) &&
              ParseNat(date[..4]) == y && ParseNat(date[4..6]) == m && ParseNat(date[6..]) == d
  {
    FourDigits(y);
    TwoDigitsRoundTrip(m);
    TwoDigitsRoundTrip(d);
    ParseNatDecimal(y);
    var date := DateDigits(y, m, d);
    assert AllDigits(date) by {
      forall k | 0 <= k < 8 ensures IsDigit(date[k]) {
        if k < 4 { assert date[k] == NatDecimal(y)[k]; }
        else if k < 6 { assert date[k] == TwoDigits(m)[k - 4]; }
        else { assert date[k] == TwoDigits(d)[k - 6]; }
      }
    }
    assert date[..4] == NatDecimal(y);
    assert date[4..6] == TwoDigits(m);
    assert date[6..] == TwoDigits(d);
  }

  /** Eight digits after a prefix with no run of its own, and not ending in a digit,
      form the leftmost run. */
  lemma DateAfterPrefix(prefix: string, date: string, suffix: string)
    requires |date| == 8 && AllDigits(date)
    requires forall k :: 0 <= k < |prefix| ==> !EightDigitsAt(prefix, k)
    requires prefix == [] || !IsDigit(prefix[|prefix| - 1])
    ensures EightDigitsAt(prefix + date + suffix, |prefix|)
    ensures forall k :: 0 <= k < |prefix| ==> !EightDigitsAt(prefix + date + suffix, k)
  {
    var name := prefix + date + suffix;
    var p := |prefix|;
    assert name[p..p + 8] == date;
    forall k | 0 <= k < p ensures !EightDigitsAt(name, k) {
      if k + 8 <= p {
        assert name[k..k + 8] == prefix[k..k + 8];
        assert !EightDigitsAt(prefix, k);
      } else {
        assert name[p - 1] == prefix[p - 1];
        assert name[k..k + 8][p - 1 - k] == name[p - 1];
      }
    }
  }

  // ---------------------------------------------------------------------
  // Grouping a year folder by month
  // ---------------------------------------------------------------------

  predicate IsNc4(name: string)
  {
    |name| >= 4 && name[|name| - 4..] == ".nc4"
  }

  /** The month a directory entry is filed under; only `.nc4` names are read. */
  function KeyOf(f: DataFile): DateToken
  {
    if IsNc4(f.name) then ExtractYearMonth(f.name) else NoDate
  }

  /** The files of one month, in listing order (`files_by_month[key]`). */
  function Bucket(listing: seq<DataFile>, key: MonthKey): (r: seq<DataFile>)
    ensures forall f :: f in r ==> f in listing && KeyOf(f) == Dated(key)
  {
    if listing == [] then []
    else
      var last := listing[|listing| - 1];
      Bucket(listing[..|listing| - 1], key) + (if KeyOf(last) == Dated(key) then [last] else [])
  }

  /** The months in order of first appearance (the insertion order of
      `files_by_month`). */
  function KeyOrder(listing: seq<DataFile>): seq<MonthKey>
  {
    if listing == [] then []
    else
      var keys := KeyOrder(listing[..|listing| - 1]);
      match KeyOf(listing[|listing| - 1])
      case Dated(k) => if k in keys then keys else keys + [k]
      case _ => keys
  }

  /** The first entry whose date token pandas rejects. */
  function FirstBadDate(listing: seq<DataFile>): (r: Option<nat>)
    ensures r.Some? ==> r.value < |listing|
  {
    if listing == [] then None
    else
      var earlier := FirstBadDate(listing[..|listing| - 1]);
      if earlier.Some? then earlier
      else if KeyOf(listing[|listing| - 1]).BadDate? then Some(|listing| - 1)
      else None
  }

  /** `FirstBadDate` finds the first entry whose date pandas rejects, and
      finds none exactly when no entry is rejected. */
  lemma {:induction false} FirstBadDateSpec(listing: seq<DataFile>)
    ensures FirstBadDate(listing).Some? ==>
              KeyOf(listing[FirstBadDate(listing).value]).BadDate? &&
              forall k :: 0 <= k < FirstBadDate(listing).value ==> !KeyOf(listing[k]).BadDate?
    ensures FirstBadDate(listing).None? <==> forall k :: 0 <= k < |listing| ==> !KeyOf(listing[k]).BadDate?
  {
    if listing != [] {
      var init := listing[..|listing| - 1];
      FirstBadDateSpec(init);
      assert forall k :: 0 <= k < |init| ==> init[k] == listing[k];
      var earlier := FirstBadDate(init);
      if earlier.None? && !KeyOf(listing[|listing| - 1]).BadDate? {
        assert forall k :: 0 <= k < |listing| ==> !KeyOf(listing[k]).BadDate? by {
          forall k | 0 <= k < |listing|
            ensures !KeyOf(listing[k]).BadDate?
          {
            if k < |init| {
              assert !KeyOf(init[k]).BadDate?;
            }
          }
        }
      }
    }
  }

  /** The first rejected entry of a listing is the first rejected entry of
      every longer listing with that prefix. */
  lemma {:induction false} FirstBadDateExtend(a: seq<DataFile>, b: seq<DataFile>)
    requires FirstBadDate(a).Some?
    ensures FirstBadDate(a + b) == FirstBadDate(a)
    decreases |b|
  {
    if b == [] {
      assert a + b == a;
    } else {
      var ab := a + b;
      var init := a + b[..|b| - 1];
      assert ab[..|ab| - 1] == init;
      FirstBadDateExtend(a, b[..|b| - 1]);
      assert FirstBadDate(init).Some?;
    }
  }

  /** A file is filed under a month exactly when it is in the listing with
      that month in its name. */
  lemma {:induction false} BucketMembers(listing: seq<DataFile>, key: MonthKey, f: DataFile)
    ensures f in Bucket(listing, key) <==> f in listing && KeyOf(f) == Dated(key)
  {
    if listing != [] {
      var init := listing[..|listing| - 1];
      assert listing == init + [listing[|listing| - 1]];
      BucketMembers(init, key, f);
    }
  }

  /** Concatenated listings are filed as the concatenation of their buckets. */
  lemma {:induction false} BucketAppend(a: seq<DataFile>, b: seq<DataFile>, key: MonthKey)
    ensures Bucket(a + b, key) == Bucket(a, key) + Bucket(b, key)
    decreases |b|
  {
    if b == [] {
      assert a + b == a;
    } else {
      var b' := b[..|b| - 1];
      var last := b[|b| - 1];
      var tail := if KeyOf(last) == Dated(key) then [last] else [];
      assert (a + b)[..|a + b| - 1] == a + b';
      assert Bucket(a + b, key) == Bucket(a + b', key) + tail;
      BucketAppend(a, b', key);
    }
  }

  /** A month is listed exactly when its bucket is not empty, and no month
      is listed twice. */
  lemma {:induction false} KeyOrderBuckets(listing: seq<DataFile>, key: MonthKey)
    ensures key in KeyOrder(listing) <==> Bucket(listing, key) != []
    ensures forall p, q :: 0 <= p < q < |KeyOrder(listing)| ==> KeyOrder(listing)[p] != KeyOrder(listing)[q]
  {
    if listing != [] {
      var init, last := listing[..|listing| - 1], listing[|listing| - 1];
      KeyOrderBuckets(init, key);
      var keys := KeyOrder(init);
      var e := KeyOf(last);
      assert Bucket(listing, key) == Bucket(init, key) + (if e == Dated(key) then [last] else []);
      match e
      case Dated(k) =>
        assert KeyOrder(listing) == if k in keys then keys else keys + [k];
      case _ =>
        assert KeyOrder(listing) == keys;
    }
  }

  datatype Grouping = Grouping(order: seq<MonthKey>, buckets: map<MonthKey, seq<DataFile>>)

  /** What one more entry does to the first rejected entry and the month order. */
  lemma GroupStep(listing: seq<DataFile>, i: nat)
    requires i < |listing|
    ensures FirstBadDate(listing[..i]).None? ==>
              FirstBadDate(listing[..i + 1]) == if KeyOf(listing[i]).BadDate? then Some(i) else None
    ensures KeyOrder(listing[..i + 1]) ==
              match KeyOf(listing[i])
              case Dated(k) => if k in KeyOrder(listing[..i]) then KeyOrder(listing[..i]) else KeyOrder(listing[..i]) + [k]
              case _ => KeyOrder(listing[..i])
  {
    assert listing[..i + 1][..i] == listing[..i];
    assert listing[..i + 1][i] == listing[i];
  }

  /** The buckets after entry `i`, when the map held the buckets before it. */
  ghost predicate BucketsUpTo(listing: seq<DataFile>, i: nat, buckets: map<MonthKey, seq<DataFile>>)
    requires i <= |listing|
  {
    (forall k :: k in buckets ==> buckets[k] == Bucket(listing[..i], k)) &&
    (forall k :: k !in buckets ==> Bucket(listing[..i], k) == [])
  }

  /** An entry without a month leaves every bucket as it was. */
  lemma SkipEntry(listing: seq<DataFile>, i: nat, buckets: map<MonthKey, seq<DataFile>>)
    requires i < |listing| && !KeyOf(listing[i]).Dated? && BucketsUpTo(listing, i, buckets)
    ensures BucketsUpTo(listing, i + 1, buckets)
  {
    assert listing[..i + 1][..i] == listing[..i];
    forall k
      ensures Bucket(listing[..i + 1], k) == Bucket(listing[..i], k)
    {
    }
  }

  /** An entry of month `k` is appended to that month's bucket, opening it if needed. */
  lemma FileEntry(listing: seq<DataFile>, i: nat, buckets: map<MonthKey, seq<DataFile>>, k: MonthKey)
    requires i < |listing| && KeyOf(listing[i]) == Dated(k) && BucketsUpTo(listing, i, buckets)
    ensures k in buckets ==> BucketsUpTo(listing, i + 1, buckets[k := buckets[k] + [listing[i]]])
    ensures k !in buckets ==> BucketsUpTo(listing, i + 1, buckets[k := [listing[i]]])
  {
    var f := listing[i];
    assert listing[..i + 1][..i] == listing[..i];
    var before := if k in buckets then buckets[k] else [];
    var after := buckets[k := before + [f]];
    assert Bucket(listing[..i + 1], k) == before + [f];
    forall k' | k' != k
      ensures Bucket(listing[..i + 1], k') == Bucket(listing[..i], k')
    {
    }
    assert BucketsUpTo(listing, i + 1, after);
    if k !in buckets {
      assert before + [f] == [f];
    }
  }

  /** `files_by_month[key].append(file_path)`, opening the month if it is new. */
  method FileInto(listing: seq<DataFile>, i: nat, order: seq<MonthKey>, buckets: map<MonthKey, seq<DataFile>>,
                  k: MonthKey) returns (order': seq<MonthKey>, buckets': map<MonthKey, seq<DataFile>>)
    requires i < |listing| && KeyOf(listing[i]) == Dated(k) && BucketsUpTo(listing, i, buckets)
    requires forall k :: k in buckets <==> k in order
    ensures order' == if k in order then order else order + [k]
    ensures BucketsUpTo(listing, i + 1, buckets')
    ensures forall k :: k in buckets' <==> k in order'
  {
    FileEntry(listing, i, buckets, k);
    if k in buckets {
      order', buckets' := order, buckets[k := buckets[k] + [listing[i]]];
    } else {
      order', buckets' := order + [k], buckets[k := [listing[i]]];
    }
  }

  /** The listing loop of one year: files grouped by month in order of first
      appearance; the first `.nc4` name with an impossible date raises. */
  method GroupByMonth(listing: seq<DataFile>) returns (r: Result<Grouping, Failure>)
    ensures FirstBadDate(listing).Some? ==> r == Err(UnparsableDate(listing[FirstBadDate(listing).value].name))
    ensures FirstBadDate(listing).None? ==> r.Ok? && r.value.order == KeyOrder(listing)
    ensures r.Ok? ==> forall k :: k in r.value.buckets <==> k in r.value.order
    ensures r.Ok? ==> forall k :: k in r.value.buckets ==> r.value.buckets[k] == Bucket(listing, k)
  {
    var order: seq<MonthKey> := [];
    var buckets: map<MonthKey, seq<DataFile>> := map[];
    for i := 0 to |listing|
      invariant FirstBadDate(listing[..i]).None?
      invariant order == KeyOrder(listing[..i])
      invariant forall k :: k in buckets <==> k in order
      invariant BucketsUpTo(listing, i, buckets)
    {
      var f := listing[i];
      GroupStep(listing, i);
      match KeyOf(f)
      case NoDate =>
        SkipEntry(listing, i, buckets);
      case BadDate(_) =>
        assert listing == listing[..i + 1] + listing[i + 1..];
        FirstBadDateExtend(listing[..i + 1], listing[i + 1..]);
        return Err(UnparsableDate(f.name));
      case Dated(k) =>
        order, buckets := FileInto(listing, i, order, buckets, k);
    }
    assert listing[..|listing|] == listing;
    return Ok(Grouping(order, buckets));
  }

  // ---------------------------------------------------------------------
  // Resampling
  // ---------------------------------------------------------------------

  /** `if resample and resample_rate`: a rate of 0 (or `None`) disables it. */
  predicate Resampling(cfg: Config)
  {
    cfg.resample && cfg.resampleRate != 0
  }

  /** `timestamp.hour % resample_rate == 0 and timestamp.minute == 0`. Python's
      floored `%` and Dafny's Euclidean `%` agree on whether the remainder is 0. */
  predicate OnCadence(rate: int, t: Timestamp)
    requires rate != 0
  {
    t.hour % rate == 0 && t.minute == 0
  }

  /** Whether a file is kept: only its first time stamp is inspected, and an
      empty time axis raises when resampling is on. */
  function CadenceCheck(cfg: Config, f: DataFile): (r: Result<bool, Failure>)
    ensures !Resampling(cfg) ==> r == Ok(true)
    ensures Resampling(cfg) && |f.times| == 0 ==> r == Err(NoTimeStep(f.name))
    ensures Resampling(cfg) && |f.times| > 0 ==>
              r.Ok? && (r.value <==> f.times[0].minute == 0 &&
                                     f.times[0].hour == (f.times[0].hour / cfg.resampleRate) * cfg.resampleRate)
  {
    if !Resampling(cfg) then Ok(true)
    else if |f.times| == 0 then Err(NoTimeStep(f.name))
    else Ok(OnCadence(cfg.resampleRate, f.times[0]))
  }

  /** A whole hour that is a multiple of the rate is on the cadence. */
  lemma OnCadenceMultiple(rate: int, t: Timestamp, q: int)
    requires rate != 0 && t.minute == 0 && t.hour == q * rate
    ensures OnCadence(rate, t)
  {
    if rate > 0 {
      MultipleModulo(q, rate);
    } else {
      MultipleModulo(-q, -rate);
      assert q * rate == (-q) * (-rate);
      assert t.hour % rate == t.hour % (-rate);
    }
  }

  lemma MultipleModulo(q: int, rate: int)
    requires rate > 0
    ensures (q * rate) % rate == 0
  {
    var m := q * rate;
    var d := q - m / rate;
    assert m == (m / rate) * rate + m % rate;
    assert m % rate == d * rate;
    MulAwayFromZero(d, rate);
  }

  lemma {:induction false} MulAwayFromZero(d: int, rate: int)
    requires rate > 0
    ensures d >= 1 ==> d * rate >= rate
    ensures d <= -1 ==> d * rate <= -rate
    decreases if d < 0 then -d else d
  {
    if d > 1 {
      MulAwayFromZero(d - 1, rate);
      assert d * rate == (d - 1) * rate + rate;
    } else if d < -1 {
      MulAwayFromZero(d + 1, rate);
      assert d * rate == (d + 1) * rate - rate;
    }
  }

  /** A time on the cadence is a whole hour that is a multiple of the rate. */
  lemma OnCadenceIsMultiple(rate: int, t: Timestamp)
    requires rate != 0 && OnCadence(rate, t)
    ensures t.minute == 0 && t.hour == (t.hour / rate) * rate
  {
  }

  /** With a 6-hourly cadence exactly the files starting at 00, 06, 12 and 18
      o'clock (on the hour) are kept. */
  lemma SixHourlyCadence(t: Timestamp)
    requires 0 <= t.hour < 24
    ensures OnCadence(6, t) <==> t.minute == 0 && (t.hour == 0 || t.hour == 6 || t.hour == 12 || t.hour == 18)
  {
  }

  /** Two files whose first time stamps agree are kept or dropped alike,
      whatever their later time stamps. */
  lemma CadenceReadsFirstStampOnly(cfg: Config, f: DataFile, g: DataFile)
    requires |f.times| > 0 && |g.times| > 0 && f.times[0] == g.times[0]
    ensures CadenceCheck(cfg, f).Ok? && CadenceCheck(cfg, g).Ok?
    ensures CadenceCheck(cfg, f) == CadenceCheck(cfg, g)
  {
  }

  // ---------------------------------------------------------------------
  // One file: regrid, mask, convert units
  // ---------------------------------------------------------------------

  /** The cube read from a file: the regridded one when regridding is on and
      a regrid file was given, the native one otherwise. */
  function SelectSteps(cfg: Config, f: DataFile): seq<Grid>
  {
    if cfg.regrid && cfg.regridFile then f.regridded else f.native
  }

  /** As written: interpolation happens whenever a regrid file is given, but
      the target grid is loaded only when `regrid` is set as well. */
  function SelectStepsAsWritten(cfg: Config, f: DataFile): (r: Result<seq<Grid>, Failure>)
    ensures r.Err? <==> cfg.regridFile && !cfg.regrid
    ensures r.Ok? ==> r.value == SelectSteps(cfg, f)
  {
    if cfg.regridFile then
      if cfg.regrid then Ok(f.regridded) else Err(RegridGridUnbound(f.name))
    else Ok(f.native)
  }

  /** The variable with every present value multiplied by the factor;
      a factor of exactly 1.0 leaves the cube untouched. */
  function ConvertUnits(factor: real, steps: seq<Grid>): (r: seq<Grid>)
    ensures |r| == |steps|
    ensures factor == 1.0 ==> r == steps
  {
    if factor == 1.0 then steps else seq(|steps|, k requires 0 <= k < |steps| => ScaleGrid(factor, steps[k]))
  }

  /** Conversion keeps the grid, scales present values and keeps missing ones missing. */
  lemma ConvertUnitsCell(factor: real, steps: seq<Grid>, lats: seq<real>, lons: seq<real>, k: nat, i: nat, j: nat)
    requires AllOnAxes(steps, lats, lons) && k < |steps| && i < |lats| && j < |lons|
    ensures AllOnAxes(ConvertUnits(factor, steps), lats, lons)
    ensures ConvertUnits(factor, steps)[k].cells[i][j] == ScaleCell(factor, steps[k].cells[i][j])
  {
    var r := ConvertUnits(factor, steps);
    forall n | 0 <= n < |r| ensures OnAxes(r[n], lats, lons) {
      assert OnAxes(steps[n], lats, lons);
    }
    assert OnAxes(steps[k], lats, lons);
    if factor == 1.0 {
      match steps[k].cells[i][j]
      case None =>
      case Some(v) => assert v * 1.0 == v;
    }
  }

  function ConvertUnitsOnAxes(factor: real, steps: seq<Grid>, lats: seq<real>, lons: seq<real>): (r: seq<Grid>)
    requires AllOnAxes(steps, lats, lons)
    ensures r == ConvertUnits(factor, steps) && AllOnAxes(r, lats, lons)
  {
    var r := ConvertUnits(factor, steps);
    assert AllOnAxes(r, lats, lons) by {
      forall n | 0 <= n < |r| ensures OnAxes(r[n], lats, lons) {
        assert OnAxes(steps[n], lats, lons);
      }
    }
    r
  }

  /** Every file of a listing is read on the grid (lats, lons). */
  predicate FilesOnGrid(cfg: Config, files: seq<DataFile>, lats: seq<real>, lons: seq<real>)
  {
    forall f :: f in files ==> AllOnAxes(SelectSteps(cfg, f), lats, lons)
  }

  /** A kept file's cube after masking and unit conversion. */
  function Prepared(cfg: Config, mask: Option<Mask>, steps: seq<Grid>, lats: seq<real>, lons: seq<real>): (r: seq<Grid>)
    requires AllOnAxes(steps, lats, lons) && MaskOptionFits(mask, lats, lons)
    ensures AllOnAxes(r, lats, lons) && |r| == |steps|
  {
    ConvertUnitsOnAxes(cfg.unitFactor, MaskSteps(mask, steps, lats, lons), lats, lons)
  }

  /** The body of the per-file loop: `None` for a file skipped by the cadence,
      the prepared cube otherwise. The mask is opened for every kept file. */
  function TransformFile(cfg: Config, region: string, masks: map<string, Mask>, f: DataFile,
                         lats: seq<real>, lons: seq<real>): (r: Result<Option<seq<Grid>>, Failure>)
    requires AllOnAxes(SelectSteps(cfg, f), lats, lons) && MaskFits(masks, region, lats, lons)
    ensures r.Ok? && r.value.Some? ==> AllOnAxes(r.value.value, lats, lons)
  {
    match CadenceCheck(cfg, f)
    case Err(e) => Err(e)
    case Ok(keep) =>
      if !keep then Ok(None)
      else match OpenMask(region, masks, lats, lons)
        case Err(e) => Err(MaskUnavailable(e))
        case Ok(mask) => Ok(Some(Prepared(cfg, mask, SelectSteps(cfg, f), lats, lons)))
  }

  /** The same step as written, reading the cube through `SelectStepsAsWritten`. */
  function TransformFileAsWritten(cfg: Config, region: string, masks: map<string, Mask>, f: DataFile,
                                  lats: seq<real>, lons: seq<real>): (r: Result<Option<seq<Grid>>, Failure>)
    requires AllOnAxes(SelectSteps(cfg, f), lats, lons) && MaskFits(masks, region, lats, lons)
    ensures !(cfg.regridFile && !cfg.regrid) ==> r == TransformFile(cfg, region, masks, f, lats, lons)
  {
    match CadenceCheck(cfg, f)
    case Err(e) => Err(e)
    case Ok(keep) =>
      if !keep then Ok(None)
      else match SelectStepsAsWritten(cfg, f)
        case Err(e) => Err(e)
        case Ok(steps) =>
          match OpenMask(region, masks, lats, lons)
          case Err(e) => Err(MaskUnavailable(e))
          case Ok(mask) => Ok(Some(Prepared(cfg, mask, steps, lats, lons)))
  }

  /** Asking for the native grid while naming a regrid file, which the
      docstring allows, raises on the first kept file; the corrected step
      reads the native cube. */
  lemma RegridFileWithoutRegridding(cfg: Config, f: DataFile, lats: seq<real>, lons: seq<real>)
    requires cfg.regridFile && !cfg.regrid && !Resampling(cfg)
    requires AllOnAxes(f.native, lats, lons)
    ensures TransformFileAsWritten(cfg, GlobalRegion, map[], f, lats, lons) == Err(RegridGridUnbound(f.name))
    ensures TransformFile(cfg, GlobalRegion, map[], f, lats, lons) ==
              Ok(Some(ConvertUnits(cfg.unitFactor, f.native)))
  {
  }

  // ---------------------------------------------------------------------
  // One month
  // ---------------------------------------------------------------------

  /** The prepared cubes of a month's kept files, in file order, or the
      first failure (`all_values` / `monthly_datasets`). */
  function KeptCubes(cfg: Config, region: string, masks: map<string, Mask>, files: seq<DataFile>,
                     lats: seq<real>, lons: seq<real>): (r: Result<seq<seq<Grid>>, Failure>)
    requires FilesOnGrid(cfg, files, lats, lons) && MaskFits(masks, region, lats, lons)
    ensures r.Ok? ==> forall n :: 0 <= n < |r.value| ==> AllOnAxes(r.value[n], lats, lons)
  {
    if files == [] then Ok([])
    else
      var last := files[|files| - 1];
      assert last in files;
      match KeptCubes(cfg, region, masks, files[..|files| - 1], lats, lons)
      case Err(e) => Err(e)
      case Ok(cubes) =>
        match TransformFile(cfg, region, masks, last, lats, lons)
        case Err(e) => Err(e)
        case Ok(None) => Ok(cubes)
        case Ok(Some(c)) => Ok(cubes + [c])
  }

  /** Once the files so far have failed, later files change nothing. */
  lemma {:induction false} KeptCubesFailed(cfg: Config, region: string, masks: map<string, Mask>, files: seq<DataFile>,
                                           n: nat, lats: seq<real>, lons: seq<real>)
    requires FilesOnGrid(cfg, files, lats, lons) && MaskFits(masks, region, lats, lons) && n <= |files|
    requires KeptCubes(cfg, region, masks, files[..n], lats, lons).Err?
    ensures KeptCubes(cfg, region, masks, files, lats, lons) == KeptCubes(cfg, region, masks, files[..n], lats, lons)
    decreases |files| - n
  {
    if n < |files| {
      assert files[..n + 1][..n] == files[..n];
      assert files[n] in files;
      KeptCubesFailed(cfg, region, masks, files, n + 1, lats, lons);
    } else {
      assert files[..n] == files;
    }
  }

  /** The files whose first time stamp passes the cadence check. */
  function KeptFiles(cfg: Config, files: seq<DataFile>): (r: seq<DataFile>)
    ensures forall f :: f in r ==> f in files
  {
    if files == [] then []
    else
      var last := files[|files| - 1];
      KeptFiles(cfg, files[..|files| - 1]) + (if CadenceCheck(cfg, last) == Ok(true) then [last] else [])
  }

  /** Without resampling every file is kept. */
  lemma {:induction false} KeptFilesAll(cfg: Config, files: seq<DataFile>)
    requires !Resampling(cfg)
    ensures KeptFiles(cfg, files) == files
  {
    if files != [] {
      KeptFilesAll(cfg, files[..|files| - 1]);
      assert files == files[..|files| - 1] + [files[|files| - 1]];
    }
  }

  /** A month that completes holds one prepared cube per kept file, in file
      order, all masked with the region's mask. */
  lemma {:induction false} KeptCubesContents(cfg: Config, region: string, masks: map<string, Mask>, files: seq<DataFile>,
                                             lats: seq<real>, lons: seq<real>)
    requires FilesOnGrid(cfg, files, lats, lons) && MaskFits(masks, region, lats, lons)
    requires KeptCubes(cfg, region, masks, files, lats, lons).Ok?
    ensures |KeptCubes(cfg, region, masks, files, lats, lons).value| == |KeptFiles(cfg, files)|
    ensures KeptFiles(cfg, files) != [] ==> OpenMask(region, masks, lats, lons).Ok?
    ensures forall n :: 0 <= n < |KeptFiles(cfg, files)| ==>
              KeptCubes(cfg, region, masks, files, lats, lons).value[n] ==
                Prepared(cfg, OpenMask(region, masks, lats, lons).value, SelectSteps(cfg, KeptFiles(cfg, files)[n]), lats, lons)
  {
    if files != [] {
      var init := files[..|files| - 1];
      var last := files[|files| - 1];
      assert last in files;
      KeptCubesContents(cfg, region, masks, init, lats, lons);
      var cubes := KeptCubes(cfg, region, masks, init, lats, lons).value;
      var kept := KeptFiles(cfg, init);
      match TransformFile(cfg, region, masks, last, lats, lons)
      case Ok(None) =>
        assert KeptFiles(cfg, files) == kept;
      case Ok(Some(c)) =>
        assert KeptFiles(cfg, files) == kept + [last];
        assert KeptCubes(cfg, region, masks, files, lats, lons).value == cubes + [c];
    }
  }

  /** A month that completes fails in no other way than the ones raised by
      the cadence check and the mask: never with the unbound regrid grid. */
  lemma {:induction false} KeptCubesFailures(cfg: Config, region: string, masks: map<string, Mask>, files: seq<DataFile>,
                                             lats: seq<real>, lons: seq<real>)
    requires FilesOnGrid(cfg, files, lats, lons) && MaskFits(masks, region, lats, lons)
    requires KeptCubes(cfg, region, masks, files, lats, lons).Err?
    ensures KeptCubes(cfg, region, masks, files, lats, lons).error.NoTimeStep? ||
            KeptCubes(cfg, region, masks, files, lats, lons).error.MaskUnavailable?
  {
    if files != [] {
      var init := files[..|files| - 1];
      var last := files[|files| - 1];
      assert last in files;
      if KeptCubes(cfg, region, masks, init, lats, lons).Err? {
        KeptCubesFailures(cfg, region, masks, init, lats, lons);
      }
    }
  }

  /** Each cube's flattened values, one entry per cube (`all_values`). */
  function FlatEach(cubes: seq<seq<Grid>>): (r: seq<seq<Cell>>)
    ensures |r| == |cubes|
  {
    if cubes == [] then [] else FlatEach(cubes[..|cubes| - 1]) + [FlattenSteps(cubes[|cubes| - 1])]
  }

  /** Concatenating the flattened cubes flattens the concatenated cubes. */
  lemma {:induction false} FlatEachConcat(cubes: seq<seq<Grid>>)
    ensures Concat(FlatEach(cubes)) == FlattenSteps(Concat(cubes))
  {
    if cubes != [] {
      var init := cubes[..|cubes| - 1];
      var last := cubes[|cubes| - 1];
      FlatEachConcat(init);
      assert FlatEach(cubes) == FlatEach(init) + [FlattenSteps(last)];
      ConcatAppend(FlatEach(init), [FlattenSteps(last)]);
      ConcatAppend(init, [last]);
      assert cubes == init + [last];
      FlattenStepsAppend(Concat(init), last);
      assert Concat([FlattenSteps(last)]) == FlattenSteps(last) by {
        assert [FlattenSteps(last)][..0] == [];
      }
      assert Concat([last]) == last by {
        assert [last][..0] == [];
      }
    }
  }

  /** The cubes of a month pooled along time (`xr.concat(..., dim='time')`). */
  function PoolSteps(cubes: seq<seq<Grid>>, lats: seq<real>, lons: seq<real>): (r: seq<Grid>)
    requires forall n :: 0 <= n < |cubes| ==> AllOnAxes(cubes[n], lats, lons)
    ensures r == Concat(cubes) && AllOnAxes(r, lats, lons)
  {
    PoolStepsOnAxes(cubes, lats, lons);
    Concat(cubes)
  }

  lemma {:induction false} PoolStepsOnAxes(cubes: seq<seq<Grid>>, lats: seq<real>, lons: seq<real>)
    requires forall n :: 0 <= n < |cubes| ==> AllOnAxes(cubes[n], lats, lons)
    ensures AllOnAxes(Concat(cubes), lats, lons)
  {
    if cubes != [] {
      var init := cubes[..|cubes| - 1];
      PoolStepsOnAxes(init, lats, lons);
      assert AllOnAxes(cubes[|cubes| - 1], lats, lons);
    }
  }

  /** The two things a month produces: the flat archive and the time-mean. */
  datatype MonthOutput = MonthOutput(archive: seq<Cell>, mean: Grid)

  /** What one (region, month) produces. */
  function MonthResult(cfg: Config, region: string, masks: map<string, Mask>, key: MonthKey, files: seq<DataFile>,
                       lats: seq<real>, lons: seq<real>): (r: Result<MonthOutput, Failure>)
    requires FilesOnGrid(cfg, files, lats, lons) && MaskFits(masks, region, lats, lons)
  {
    match KeptCubes(cfg, region, masks, files, lats, lons)
    case Err(e) => Err(e)
    case Ok(cubes) =>
      if cubes == [] then Err(NothingToConcatenate(key))
      else
        var steps := PoolSteps(cubes, lats, lons);
        Ok(MonthOutput(FlattenSteps(steps), MeanGrid(steps, lats, lons)))
  }

  /** One more file of the month: its cube is kept, skipped, or its failure raised. */
  lemma KeptCubesStep(cfg: Config, region: string, masks: map<string, Mask>, files: seq<DataFile>, i: nat,
                      lats: seq<real>, lons: seq<real>)
    requires FilesOnGrid(cfg, files, lats, lons) && MaskFits(masks, region, lats, lons) && i < |files|
    requires KeptCubes(cfg, region, masks, files[..i], lats, lons).Ok?
    ensures AllOnAxes(SelectSteps(cfg, files[i]), lats, lons)
    ensures KeptCubes(cfg, region, masks, files[..i + 1], lats, lons) ==
              match TransformFile(cfg, region, masks, files[i], lats, lons)
              case Err(e) => Err(e)
              case Ok(None) => KeptCubes(cfg, region, masks, files[..i], lats, lons)
              case Ok(Some(c)) => Ok(KeptCubes(cfg, region, masks, files[..i], lats, lons).value + [c])
  {
    assert files[i] in files;
    assert files[..i + 1][..i] == files[..i];
    assert files[..i + 1][i] == files[i];
  }

  /** The per-file loop of one month: the kept cubes and their flattened values. */
  method CollectCubes(cfg: Config, region: string, masks: map<string, Mask>, files: seq<DataFile>,
                      lats: seq<real>, lons: seq<real>) returns (r: Result<seq<seq<Grid>>, Failure>, allValues: seq<seq<Cell>>)
    requires FilesOnGrid(cfg, files, lats, lons) && MaskFits(masks, region, lats, lons)
    ensures r == KeptCubes(cfg, region, masks, files, lats, lons)
    ensures r.Ok? ==> allValues == FlatEach(r.value)
  {
    allValues := [];
    var monthly: seq<seq<Grid>> := [];
    for i := 0 to |files|
      invariant KeptCubes(cfg, region, masks, files[..i], lats, lons) == Ok(monthly)
      invariant allValues == FlatEach(monthly)
    {
      KeptCubesStep(cfg, region, masks, files, i, lats, lons);
      var step := TransformFile(cfg, region, masks, files[i], lats, lons);
      match step
      case Err(e) =>
        KeptCubesFailed(cfg, region, masks, files, i + 1, lats, lons);
        return Err(e), allValues;
      case Ok(None) =>
      case Ok(Some(c)) =>
        assert (monthly + [c])[..|monthly|] == monthly;
        allValues := allValues + [FlattenSteps(c)];
        monthly := monthly + [c];
    }
    assert files[..|files|] == files;
    r := Ok(monthly);
  }

  /** The per-file loop of one month, then the concatenation and the mean. */
  method ProcessMonth(cfg: Config, region: string, masks: map<string, Mask>, key: MonthKey, files: seq<DataFile>,
                      lats: seq<real>, lons: seq<real>) returns (r: Result<MonthOutput, Failure>)
    requires FilesOnGrid(cfg, files, lats, lons) && MaskFits(masks, region, lats, lons)
    ensures r == MonthResult(cfg, region, masks, key, files, lats, lons)
  {
    var kept, allValues := CollectCubes(cfg, region, masks, files, lats, lons);
    if kept.Err? {
      return Err(kept.error);
    }
    var monthly := kept.value;
    if monthly == [] {
      return Err(NothingToConcatenate(key));
    }
    var archive := Concat(allValues);
    FlatEachConcat(monthly);
    var mean := MeanGrid(PoolSteps(monthly, lats, lons), lats, lons);
    return Ok(MonthOutput(archive, mean));
  }

  /** The steps pooled from several cubes keep every cell that is missing in
      all of them missing. */
  lemma {:induction false} PoolStepsMissing(cubes: seq<seq<Grid>>, lats: seq<real>, lons: seq<real>, i: nat, j: nat)
    requires forall n :: 0 <= n < |cubes| ==> AllOnAxes(cubes[n], lats, lons)
    requires forall n :: 0 <= n < |cubes| ==> MissingThroughout(cubes[n], i, j)
    ensures MissingThroughout(PoolSteps(cubes, lats, lons), i, j)
  {
    if cubes != [] {
      var init := cubes[..|cubes| - 1];
      var last := cubes[|cubes| - 1];
      PoolStepsMissing(init, lats, lons, i, j);
      assert Concat(cubes) == Concat(init) + last;
      assert MissingThroughout(last, i, j);
    }
  }

  /** A completed month's archive holds kept steps x cells values. */
  lemma MonthArchiveLength(cfg: Config, region: string, masks: map<string, Mask>, key: MonthKey, files: seq<DataFile>,
                           lats: seq<real>, lons: seq<real>)
    requires FilesOnGrid(cfg, files, lats, lons) && MaskFits(masks, region, lats, lons)
    requires MonthResult(cfg, region, masks, key, files, lats, lons).Ok?
    ensures |MonthResult(cfg, region, masks, key, files, lats, lons).value.archive| ==
              |PoolSteps(KeptCubes(cfg, region, masks, files, lats, lons).value, lats, lons)| * (|lats| * |lons|)
  {
    FlattenStepsShape(PoolSteps(KeptCubes(cfg, region, masks, files, lats, lons).value, lats, lons), lats, lons);
  }

  /** With zero kept files a month raises at the concatenation and writes nothing. */
  lemma MonthWithoutKeptFiles(cfg: Config, region: string, masks: map<string, Mask>, key: MonthKey, files: seq<DataFile>,
                              lats: seq<real>, lons: seq<real>)
    requires FilesOnGrid(cfg, files, lats, lons) && MaskFits(masks, region, lats, lons)
    requires KeptCubes(cfg, region, masks, files, lats, lons).Ok? && KeptFiles(cfg, files) == []
    ensures MonthResult(cfg, region, masks, key, files, lats, lons) == Err(NothingToConcatenate(key))
  {
    KeptCubesContents(cfg, region, masks, files, lats, lons);
  }

  /** Outside a region's mask every kept cube is missing throughout. */
  lemma KeptCubesMasked(cfg: Config, region: string, masks: map<string, Mask>, files: seq<DataFile>,
                        lats: seq<real>, lons: seq<real>, m: Mask, i: nat, j: nat)
    requires FilesOnGrid(cfg, files, lats, lons) && MaskFits(masks, region, lats, lons)
    requires KeptCubes(cfg, region, masks, files, lats, lons).Ok?
    requires OpenMask(region, masks, lats, lons) == Ok(Some(m))
    requires i < |lats| && j < |lons| && m.flags[i][j] == 0.0
    ensures forall n :: 0 <= n < |KeptCubes(cfg, region, masks, files, lats, lons).value| ==>
              MissingThroughout(KeptCubes(cfg, region, masks, files, lats, lons).value[n], i, j)
  {
    var cubes := KeptCubes(cfg, region, masks, files, lats, lons).value;
    var kept := KeptFiles(cfg, files);
    KeptCubesContents(cfg, region, masks, files, lats, lons);
    forall n | 0 <= n < |cubes| ensures MissingThroughout(cubes[n], i, j) {
      var f := kept[n];
      assert f in files;
      var selected := SelectSteps(cfg, f);
      var masked := MaskSteps(Some(m), selected, lats, lons);
      forall k | 0 <= k < |cubes[n]|
        ensures i < |cubes[n][k].cells| && j < |cubes[n][k].cells[i]| && cubes[n][k].cells[i][j].None?
      {
        MaskStepsCell(m, selected, lats, lons, k, i, j);
        ConvertUnitsCell(cfg.unitFactor, masked, lats, lons, k, i, j);
      }
    }
  }

  /** Outside a region's mask the month's mean is missing. */
  lemma MonthMaskedMean(cfg: Config, region: string, masks: map<string, Mask>, key: MonthKey, files: seq<DataFile>,
                        lats: seq<real>, lons: seq<real>, m: Mask, i: nat, j: nat)
    requires FilesOnGrid(cfg, files, lats, lons) && MaskFits(masks, region, lats, lons)
    requires MonthResult(cfg, region, masks, key, files, lats, lons).Ok?
    requires OpenMask(region, masks, lats, lons) == Ok(Some(m))
    requires i < |lats| && j < |lons| && m.flags[i][j] == 0.0
    ensures MonthResult(cfg, region, masks, key, files, lats, lons).value.mean.cells[i][j].None?
  {
    var cubes := KeptCubes(cfg, region, masks, files, lats, lons).value;
    KeptCubesMasked(cfg, region, masks, files, lats, lons, m, i, j);
    var steps := PoolSteps(cubes, lats, lons);
    PoolStepsMissing(cubes, lats, lons, i, j);
    MeanGridMissing(steps, lats, lons, i, j);
  }

  /** Outside a region's mask every archived value is missing: for each kept
      time step k, the value of cell (i, j) at k * cells + i * |lons| + j. */
  lemma MonthMaskedArchive(cfg: Config, region: string, masks: map<string, Mask>, key: MonthKey, files: seq<DataFile>,
                           lats: seq<real>, lons: seq<real>, m: Mask, i: nat, j: nat, k: nat)
    requires FilesOnGrid(cfg, files, lats, lons) && MaskFits(masks, region, lats, lons)
    requires MonthResult(cfg, region, masks, key, files, lats, lons).Ok?
    requires OpenMask(region, masks, lats, lons) == Ok(Some(m))
    requires i < |lats| && j < |lons| && m.flags[i][j] == 0.0
    requires k < |PoolSteps(KeptCubes(cfg, region, masks, files, lats, lons).value, lats, lons)|
    ensures var archive := MonthResult(cfg, region, masks, key, files, lats, lons).value.archive;
            0 <= k * (|lats| * |lons|) + i * |lons| + j < |archive| &&
            archive[k * (|lats| * |lons|) + i * |lons| + j].None?
  {
    var cubes := KeptCubes(cfg, region, masks, files, lats, lons).value;
    KeptCubesMasked(cfg, region, masks, files, lats, lons, m, i, j);
    var steps := PoolSteps(cubes, lats, lons);
    PoolStepsMissing(cubes, lats, lons, i, j);
    var archive := MonthResult(cfg, region, masks, key, files, lats, lons).value.archive;
    FlattenStepsMissing(archive, steps, lats, lons, i, j, k);
  }

  /** A cell missing throughout is missing at each of its flattened positions. */
  lemma FlattenStepsMissing(archive: seq<Cell>, steps: seq<Grid>, lats: seq<real>, lons: seq<real>, i: nat, j: nat, k: nat)
    requires archive == FlattenSteps(steps)
    requires AllOnAxes(steps, lats, lons) && MissingThroughout(steps, i, j)
    requires k < |steps| && i < |lats| && j < |lons|
    ensures 0 <= k * (|lats| * |lons|) + i * |lons| + j < |archive|
    ensures archive[k * (|lats| * |lons|) + i * |lons| + j].None?
  {
    FlattenStepsAt(steps, lats, lons, k, i, j);
    MulNonNegative(|lats|, |lons|);
    MulNonNegative(k, |lats| * |lons|);
    MulNonNegative(i, |lons|);
  }

  // ---------------------------------------------------------------------
  // The whole run: years, regions, months
  // ---------------------------------------------------------------------

  /** The files one (region, month) writes into `<output>/<yearFolder>/<region>/`:
      the archive, then the mean, both named after the month key. */
  function MonthRun(yearFolder: int, cfg: Config, region: string, masks: map<string, Mask>, key: MonthKey,
                    files: seq<DataFile>, lats: seq<real>, lons: seq<real>): Run<Failure>
    requires FilesOnGrid(cfg, files, lats, lons) && MaskFits(masks, region, lats, lons)
  {
    match MonthResult(cfg, region, masks, key, files, lats, lons)
    case Err(e) => Run([], Some(e))
    case Ok(out) =>
      var month := TwoDigits(key.month);
      Run([Written(yearFolder, region, ArchiveFileName(key.year, month, region, cfg.variable), FlatArchive(out.archive)),
           Written(yearFolder, region, MeanFileName(key.year, month, region, cfg.variable), MeanFile(cfg.variable, out.mean))],
          None)
  }

  /** The months of one region, in the order given. */
  function MonthsRun(yearFolder: int, cfg: Config, region: string, masks: map<string, Mask>, listing: seq<DataFile>,
                     keys: seq<MonthKey>, lats: seq<real>, lons: seq<real>): Run<Failure>
    requires FilesOnGrid(cfg, listing, lats, lons) && MaskFits(masks, region, lats, lons)
  {
    if keys == [] then Done()
    else
      var key := keys[|keys| - 1];
      Then(MonthsRun(yearFolder, cfg, region, masks, listing, keys[..|keys| - 1], lats, lons),
           MonthRun(yearFolder, cfg, region, masks, key, Bucket(listing, key), lats, lons))
  }

  /** The regions of one year, each over all months of the year folder. */
  function RegionsRun(yearFolder: int, cfg: Config, regions: seq<string>, masks: map<string, Mask>,
                      listing: seq<DataFile>, lats: seq<real>, lons: seq<real>): Run<Failure>
    requires FilesOnGrid(cfg, listing, lats, lons) && MasksFit(masks, regions, lats, lons)
  {
    if regions == [] then Done()
    else
      Then(RegionsRun(yearFolder, cfg, regions[..|regions| - 1], masks, listing, lats, lons),
           MonthsRun(yearFolder, cfg, regions[|regions| - 1], masks, listing, KeyOrder(listing), lats, lons))
  }

  /** One year folder: the listing is grouped before any region is processed. */
  function YearRun(year: int, cfg: Config, regions: seq<string>, masks: map<string, Mask>,
                   listing: seq<DataFile>, lats: seq<real>, lons: seq<real>): Run<Failure>
    requires FilesOnGrid(cfg, listing, lats, lons) && MasksFit(masks, regions, lats, lons)
  {
    match FirstBadDate(listing)
    case Some(n) => Run([], Some(UnparsableDate(listing[n].name)))
    case None => RegionsRun(year, cfg, regions, masks, listing, lats, lons)
  }

  /** Every year folder that exists is read on the grid (lats, lons). */
  predicate FoldersOnGrid(cfg: Config, folders: map<int, seq<DataFile>>, lats: seq<real>, lons: seq<real>)
  {
    forall y :: y in folders ==> FilesOnGrid(cfg, folders[y], lats, lons)
  }

  /** `process_nc_files`: the years in order; `folders` maps a year to the
      listing of its input folder. */
  function YearsRun(years: seq<int>, cfg: Config, regions: seq<string>, masks: map<string, Mask>,
                    folders: map<int, seq<DataFile>>, lats: seq<real>, lons: seq<real>): Run<Failure>
    requires FoldersOnGrid(cfg, folders, lats, lons) && MasksFit(masks, regions, lats, lons)
  {
    if years == [] then Done()
    else
      var year := years[|years| - 1];
      Then(YearsRun(years[..|years| - 1], cfg, regions, masks, folders, lats, lons),
           if year in folders then YearRun(year, cfg, regions, masks, folders[year], lats, lons)
           else Run([], Some(MissingYearFolder(year))))
  }

  lemma MonthsRunStep(yearFolder: int, cfg: Config, region: string, masks: map<string, Mask>,
                      listing: seq<DataFile>, keys: seq<MonthKey>, n: nat, lats: seq<real>, lons: seq<real>)
    requires FilesOnGrid(cfg, listing, lats, lons) && MaskFits(masks, region, lats, lons) && n < |keys|
    ensures FilesOnGrid(cfg, Bucket(listing, keys[n]), lats, lons)
    ensures MonthsRun(yearFolder, cfg, region, masks, listing, keys[..n + 1], lats, lons) ==
              Then(MonthsRun(yearFolder, cfg, region, masks, listing, keys[..n], lats, lons),
                   MonthRun(yearFolder, cfg, region, masks, keys[n], Bucket(listing, keys[n]), lats, lons))
  {
    assert keys[..n + 1][..n] == keys[..n];
  }

  /** After a month fails, the later months of the region add nothing. */
  lemma {:induction false} MonthsRunStops(yearFolder: int, cfg: Config, region: string, masks: map<string, Mask>,
                                          listing: seq<DataFile>, keys: seq<MonthKey>, n: nat, lats: seq<real>, lons: seq<real>)
    requires FilesOnGrid(cfg, listing, lats, lons) && MaskFits(masks, region, lats, lons) && n <= |keys|
    requires MonthsRun(yearFolder, cfg, region, masks, listing, keys[..n], lats, lons).failure.Some?
    ensures MonthsRun(yearFolder, cfg, region, masks, listing, keys, lats, lons) ==
              MonthsRun(yearFolder, cfg, region, masks, listing, keys[..n], lats, lons)
    decreases |keys| - n
  {
    if n < |keys| {
      assert keys[..n + 1][..n] == keys[..n];
      MonthsRunStops(yearFolder, cfg, region, masks, listing, keys, n + 1, lats, lons);
    } else {
      assert keys[..n] == keys;
    }
  }

  /** After a region fails, the later regions add nothing. */
  lemma {:induction false} RegionsRunStops(yearFolder: int, cfg: Config, regions: seq<string>, n: nat, masks: map<string, Mask>,
                                           listing: seq<DataFile>, lats: seq<real>, lons: seq<real>)
    requires FilesOnGrid(cfg, listing, lats, lons) && MasksFit(masks, regions, lats, lons) && n <= |regions|
    requires RegionsRun(yearFolder, cfg, regions[..n], masks, listing, lats, lons).failure.Some?
    ensures RegionsRun(yearFolder, cfg, regions, masks, listing, lats, lons) ==
              RegionsRun(yearFolder, cfg, regions[..n], masks, listing, lats, lons)
    decreases |regions| - n
  {
    if n < |regions| {
      assert regions[..n + 1][..n] == regions[..n];
      RegionsRunStops(yearFolder, cfg, regions, n + 1, masks, listing, lats, lons);
    } else {
      assert regions[..n] == regions;
    }
  }

  /** After a year fails, the later years add nothing. */
  lemma {:induction false} YearsRunStops(years: seq<int>, n: nat, cfg: Config, regions: seq<string>, masks: map<string, Mask>,
                                         folders: map<int, seq<DataFile>>, lats: seq<real>, lons: seq<real>)
    requires FoldersOnGrid(cfg, folders, lats, lons) && MasksFit(masks, regions, lats, lons) && n <= |years|
    requires YearsRun(years[..n], cfg, regions, masks, folders, lats, lons).failure.Some?
    ensures YearsRun(years, cfg, regions, masks, folders, lats, lons) == YearsRun(years[..n], cfg, regions, masks, folders, lats, lons)
    decreases |years| - n
  {
    if n < |years| {
      assert years[..n + 1][..n] == years[..n];
      YearsRunStops(years, n + 1, cfg, regions, masks, folders, lats, lons);
    } else {
      assert years[..n] == years;
    }
  }

  /** Both files of one month go into the region's folder of the year. */
  lemma MonthRunPlaced(yearFolder: int, cfg: Config, region: string, masks: map<string, Mask>, key: MonthKey,
                       files: seq<DataFile>, lats: seq<real>, lons: seq<real>)
    requires FilesOnGrid(cfg, files, lats, lons) && MaskFits(masks, region, lats, lons)
    ensures forall w :: w in MonthRun(yearFolder, cfg, region, masks, key, files, lats, lons).written ==>
              w.yearFolder == yearFolder && w.region == region
  {
  }

  /** A region's months write only into that region's folder of the year. */
  lemma {:induction false} MonthsRunPlaced(yearFolder: int, cfg: Config, region: string, masks: map<string, Mask>,
                                           listing: seq<DataFile>, keys: seq<MonthKey>, lats: seq<real>, lons: seq<real>)
    requires FilesOnGrid(cfg, listing, lats, lons) && MaskFits(masks, region, lats, lons)
    ensures forall w :: w in MonthsRun(yearFolder, cfg, region, masks, listing, keys, lats, lons).written ==>
              w.yearFolder == yearFolder && w.region == region
  {
    if keys != [] {
      var init := keys[..|keys| - 1];
      var key := keys[|keys| - 1];
      MonthsRunPlaced(yearFolder, cfg, region, masks, listing, init, lats, lons);
      var before := MonthsRun(yearFolder, cfg, region, masks, listing, init, lats, lons);
      var month := MonthRun(yearFolder, cfg, region, masks, key, Bucket(listing, key), lats, lons);
      MonthRunPlaced(yearFolder, cfg, region, masks, key, Bucket(listing, key), lats, lons);
      assert forall w :: w in before.written + month.written ==> w in before.written || w in month.written;
    }
  }

  /** A year writes only into its own folder, under the listed regions. */
  lemma {:induction false} RegionsRunPlaced(yearFolder: int, cfg: Config, regions: seq<string>, masks: map<string, Mask>,
                                            listing: seq<DataFile>, lats: seq<real>, lons: seq<real>)
    requires FilesOnGrid(cfg, listing, lats, lons) && MasksFit(masks, regions, lats, lons)
    ensures forall w :: w in RegionsRun(yearFolder, cfg, regions, masks, listing, lats, lons).written ==>
              w.yearFolder == yearFolder && w.region in regions
  {
    if regions != [] {
      var init := regions[..|regions| - 1];
      var last := regions[|regions| - 1];
      RegionsRunPlaced(yearFolder, cfg, init, masks, listing, lats, lons);
      MonthsRunPlaced(yearFolder, cfg, last, masks, listing, KeyOrder(listing), lats, lons);
      assert forall r :: r in init ==> r in regions;
    }
  }

  /** A run writes only into the folders of the listed years and regions,
      whatever years the file names inside a folder carry. */
  lemma {:induction false} YearsRunPlaced(years: seq<int>, cfg: Config, regions: seq<string>, masks: map<string, Mask>,
                                          folders: map<int, seq<DataFile>>, lats: seq<real>, lons: seq<real>)
    requires FoldersOnGrid(cfg, folders, lats, lons) && MasksFit(masks, regions, lats, lons)
    ensures forall w :: w in YearsRun(years, cfg, regions, masks, folders, lats, lons).written ==>
              w.yearFolder in years && w.region in regions
  {
    if years != [] {
      var init := years[..|years| - 1];
      var year := years[|years| - 1];
      YearsRunPlaced(init, cfg, regions, masks, folders, lats, lons);
      if year in folders {
        RegionsRunPlaced(year, cfg, regions, masks, folders[year], lats, lons);
      }
      assert forall y :: y in init ==> y in years;
    }
  }

  /** One month of one region: process the files, then write the archive
      and the mean. */
  method WriteMonth(yearFolder: int, cfg: Config, region: string, masks: map<string, Mask>, key: MonthKey,
                    files: seq<DataFile>, lats: seq<real>, lons: seq<real>) returns (run: Run<Failure>)
    requires FilesOnGrid(cfg, files, lats, lons) && MaskFits(masks, region, lats, lons)
    ensures run == MonthRun(yearFolder, cfg, region, masks, key, files, lats, lons)
  {
    var result := ProcessMonth(cfg, region, masks, key, files, lats, lons);
    if result.Err? {
      return Run([], Some(result.error));
    }
    var month := TwoDigits(key.month);
    var archive := Written(yearFolder, region, ArchiveFileName(key.year, month, region, cfg.variable),
                           FlatArchive(result.value.archive));
    var mean := Written(yearFolder, region, MeanFileName(key.year, month, region, cfg.variable),
                        MeanFile(cfg.variable, result.value.mean));
    run := Run([archive, mean], None);
  }

  /** A grouping holds exactly the listed months, each with its bucket. */
  ghost predicate Grouped(listing: seq<DataFile>, grouping: Grouping)
  {
    (forall k :: k in grouping.buckets <==> k in grouping.order) &&
    (forall k :: k in grouping.buckets ==> grouping.buckets[k] == Bucket(listing, k))
  }

  /** One pass of the month loop: the n-th month's files written after the earlier months. */
  method WriteNextMonth(yearFolder: int, cfg: Config, region: string, masks: map<string, Mask>,
                        listing: seq<DataFile>, grouping: Grouping, n: nat,
                        lats: seq<real>, lons: seq<real>, run: Run<Failure>) returns (next: Run<Failure>)
    requires FilesOnGrid(cfg, listing, lats, lons) && MaskFits(masks, region, lats, lons)
    requires Grouped(listing, grouping) && n < |grouping.order|
    requires run == MonthsRun(yearFolder, cfg, region, masks, listing, grouping.order[..n], lats, lons)
    ensures next == MonthsRun(yearFolder, cfg, region, masks, listing, grouping.order[..n + 1], lats, lons)
  {
    var key := grouping.order[n];
    assert key in grouping.buckets;
    var files := grouping.buckets[key];
    MonthsRunStep(yearFolder, cfg, region, masks, listing, grouping.order, n, lats, lons);
    var monthRun := WriteMonth(yearFolder, cfg, region, masks, key, files, lats, lons);
    next := Then(run, monthRun);
  }

  /** The month loop of one region over a grouped year folder. */
  method ProcessRegion(yearFolder: int, cfg: Config, region: string, masks: map<string, Mask>,
                       listing: seq<DataFile>, grouping: Grouping, lats: seq<real>, lons: seq<real>)
    returns (run: Run<Failure>)
    requires FilesOnGrid(cfg, listing, lats, lons) && MaskFits(masks, region, lats, lons)
    requires Grouped(listing, grouping)
    ensures run == MonthsRun(yearFolder, cfg, region, masks, listing, grouping.order, lats, lons)
  {
    var keys := grouping.order;
    run := Done();
    for n := 0 to |keys|
      invariant run == MonthsRun(yearFolder, cfg, region, masks, listing, keys[..n], lats, lons)
      invariant run.failure.None?
    {
      run := WriteNextMonth(yearFolder, cfg, region, masks, listing, grouping, n, lats, lons, run);
      if run.failure.Some? {
        MonthsRunStops(yearFolder, cfg, region, masks, listing, keys, n + 1, lats, lons);
        return;
      }
    }
    assert keys[..|keys|] == keys;
  }

  /** One year: group the listing, then every region over every month. */
  method ProcessYear(year: int, cfg: Config, regions: seq<string>, masks: map<string, Mask>,
                     listing: seq<DataFile>, lats: seq<real>, lons: seq<real>) returns (run: Run<Failure>)
    requires FilesOnGrid(cfg, listing, lats, lons) && MasksFit(masks, regions, lats, lons)
    ensures run == YearRun(year, cfg, regions, masks, listing, lats, lons)
  {
    var grouped := GroupByMonth(listing);
    if grouped.Err? {
      return Run([], Some(grouped.error));
    }
    var grouping := grouped.value;
    run := Done();
    for n := 0 to |regions|
      invariant run == RegionsRun(year, cfg, regions[..n], masks, listing, lats, lons)
      invariant run.failure.None?
    {
      assert regions[..n + 1][..n] == regions[..n];
      assert regions[..n + 1][n] == regions[n];
      var regionRun := ProcessRegion(year, cfg, regions[n], masks, listing, grouping, lats, lons);
      run := Then(run, regionRun);
      if run.failure.Some? {
        RegionsRunStops(year, cfg, regions, n + 1, masks, listing, lats, lons);
        return;
      }
    }
    assert regions[..|regions|] == regions;
  }

  /** `process_nc_files` over all years. */
  method ProcessYears(years: seq<int>, cfg: Config, regions: seq<string>, masks: map<string, Mask>,
                      folders: map<int, seq<DataFile>>, lats: seq<real>, lons: seq<real>) returns (run: Run<Failure>)
    requires FoldersOnGrid(cfg, folders, lats, lons) && MasksFit(masks, regions, lats, lons)
    ensures run == YearsRun(years, cfg, regions, masks, folders, lats, lons)
  {
    run := Done();
    for n := 0 to |years|
      invariant run == YearsRun(years[..n], cfg, regions, masks, folders, lats, lons)
      invariant run.failure.None?
    {
      var year := years[n];
      assert years[..n + 1][..n] == years[..n];
      assert years[..n + 1][n] == year;
      var yearRun: Run<Failure>;
      if year in folders {
        yearRun := ProcessYear(year, cfg, regions, masks, folders[year], lats, lons);
      } else {
        yearRun := Run([], Some(MissingYearFolder(year)));
      }
      run := Then(run, yearRun);
      if run.failure.Some? {
        YearsRunStops(years, n + 1, cfg, regions, masks, folders, lats, lons);
        return;
      }
    }
    assert years[..|years|] == years;
  }
}
