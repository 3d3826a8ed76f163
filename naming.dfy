/** Calendar tables and the file-naming scheme shared by the two ingest
    scripts (writers) and the comparison stage (reader):
    `<year>_<MM>_<region>_<variable>.npz` and `..._average.nc`. */
module Naming {

  /** `month_names` / the keys of `month_dict`: index i is month i + 1. */
  const MonthAbbrevs: seq<string> :=
    ["JAN", "FEB", "MAR", "APR", "MAY", "JUN", "JUL", "AUG", "SEP", "OCT", "NOV", "DEC"]

  predicate IsDigit(c: char)
  {
    '0' <= c <= '9'
  }

  predicate AllDigits(s: string)
  {
    forall k :: 0 <= k < |s| ==> IsDigit(s[k])
  }

  function DigitChar(d: nat): (c: char)
    requires d < 10
    ensures IsDigit(c) && c as int - '0' as int == d
  {
    (d + '0' as int) as char
  }

  function DigitValue(c: char): nat
    requires IsDigit(c)
  {
    c as int - '0' as int
  }

  /** Decimal digits of a natural number, without leading zeros. */
  function NatDecimal(n: nat): (r: string)
    ensures |r| >= 1 && AllDigits(r)
  {
    if n < 10 then [DigitChar(n)] else NatDecimal(n / 10) + [DigitChar(n % 10)]
  }

  /** `str(n)` for an integer. */
  function Decimal(n: int): string
  {
    if n < 0 then "-" + NatDecimal(-n) else NatDecimal(n)
  }

  /** `f"{n:02d}"`: zero-padded to at least two characters. */
  function TwoDigits(n: int): string
  {
    if 0 <= n < 10 then "0" + NatDecimal(n) else Decimal(n)
  }

  /** The value of a string of decimal digits (leading zeros allowed). */
  function ParseNat(s: string): nat
    requires AllDigits(s)
  {
    if s == [] then 0 else ParseNat(s[..|s| - 1]) * 10 + DigitValue(s[|s| - 1])
  }

  /** Reading back the digits of `n` gives `n`. */
  lemma {:induction false} ParseNatDecimal(n: nat)
    ensures ParseNat(NatDecimal(n)) == n
  {
    if n >= 10 {
      var s := NatDecimal(n);
      assert s[..|s| - 1] == NatDecimal(n / 10);
      ParseNatDecimal(n / 10);
    }
  }

  lemma {:induction false} ParseNatLeadingZero(s: string)
    requires AllDigits(s)
    ensures AllDigits("0" + s) && ParseNat("0" + s) == ParseNat(s)
  {
    if s != [] {
      var t := "0" + s;
      assert t[..|t| - 1] == "0" + s[..|s| - 1];
      ParseNatLeadingZero(s[..|s| - 1]);
    }
  }

  /** A number below 100 formats to two digits that read back as the number. */
  lemma TwoDigitsRoundTrip(n: int)
    requires 0 <= n < 100
    ensures |TwoDigits(n)| == 2 && AllDigits(TwoDigits(n)) && ParseNat(TwoDigits(n)) == n
  {
    ParseNatDecimal(n);
    if n < 10 {
      ParseNatLeadingZero(NatDecimal(n));
    } else {
      assert NatDecimal(n) == NatDecimal(n / 10) + [DigitChar(n % 10)];
    }
  }

  /** A four-digit number has four decimal digits. */
  lemma FourDigits(n: nat)
    requires 1000 <= n <= 9999
    ensures |NatDecimal(n)| == 4
  {
    assert NatDecimal(n) == NatDecimal(n / 10) + [DigitChar(n % 10)];
    assert NatDecimal(n / 10) == NatDecimal(n / 100) + [DigitChar(n / 10 % 10)];
    assert NatDecimal(n / 100) == NatDecimal(n / 1000) + [DigitChar(n / 100 % 10)];
  }

  /** `month_strings`: the months "01".."12" in ascending order. */
  const MonthStrings: seq<string> := ["01", "02", "03", "04", "05", "06", "07", "08", "09", "10", "11", "12"]

  /** `month_strings = [f'{i:02d}' for i in range(1, 13)]`: entry i is month i + 1
      zero-padded to two digits. */
  lemma MonthStringsFormatted()
    ensures |MonthStrings| == 12
    ensures forall i :: 0 <= i < 12 ==> MonthStrings[i] == TwoDigits(i + 1)
  {
    EarlyMonthStrings();
    MiddleMonthStrings();
    LateMonthStrings();
  }

  lemma EarlyMonthStrings()
    ensures forall i :: 0 <= i < 4 ==> MonthStrings[i] == TwoDigits(i + 1)
  {
    assert TwoDigits(1) == "01" && TwoDigits(2) == "02";
    assert TwoDigits(3) == "03" && TwoDigits(4) == "04";
  }

  lemma MiddleMonthStrings()
    ensures forall i :: 4 <= i < 9 ==> MonthStrings[i] == TwoDigits(i + 1)
  {
    assert TwoDigits(5) == "05" && TwoDigits(6) == "06";
    assert TwoDigits(7) == "07" && TwoDigits(8) == "08" && TwoDigits(9) == "09";
  }

  lemma LateMonthStrings()
    ensures forall i :: 9 <= i < 12 ==> MonthStrings[i] == TwoDigits(i + 1)
  {
    assert TwoDigits(10) == "10" by {
      assert NatDecimal(10) == NatDecimal(1) + [DigitChar(0)];
    }
    assert TwoDigits(11) == "11" by {
      assert NatDecimal(11) == NatDecimal(1) + [DigitChar(1)];
    }
    assert TwoDigits(12) == "12" by {
      assert NatDecimal(12) == NatDecimal(1) + [DigitChar(2)];
    }
  }

  /** `month_dict`: abbreviation to two-digit month. */
  const MonthDict: map<string, string> := map[
    "JAN" := "01", "FEB" := "02", "MAR" := "03", "APR" := "04", "MAY" := "05", "JUN" := "06",
    "JUL" := "07", "AUG" := "08", "SEP" := "09", "OCT" := "10", "NOV" := "11", "DEC" := "12"]

  /** The month tables agree: the i-th abbreviation maps to month i + 1 written
      in two digits. */
  lemma MonthTables()
    ensures |MonthAbbrevs| == 12 && |MonthStrings| == 12
    ensures forall i :: 0 <= i < 12 ==> MonthAbbrevs[i] in MonthDict
    ensures forall i :: 0 <= i < 12 ==> MonthDict[MonthAbbrevs[i]] == MonthStrings[i] == TwoDigits(i + 1)
  {
    MonthStringsFormatted();
    FirstHalfEntries();
    SecondHalfEntries();
  }

  lemma FirstHalfEntries()
    ensures forall i :: 0 <= i < 6 ==> MonthAbbrevs[i] in MonthDict && MonthDict[MonthAbbrevs[i]] == MonthStrings[i]
  {
    assert MonthAbbrevs[0] == "JAN" && MonthDict["JAN"] == "01";
    assert MonthAbbrevs[1] == "FEB" && MonthDict["FEB"] == "02";
    assert MonthAbbrevs[2] == "MAR" && MonthDict["MAR"] == "03";
    assert MonthAbbrevs[3] == "APR" && MonthDict["APR"] == "04";
    assert MonthAbbrevs[4] == "MAY" && MonthDict["MAY"] == "05";
    assert MonthAbbrevs[5] == "JUN" && MonthDict["JUN"] == "06";
  }

  lemma SecondHalfEntries()
    ensures forall i :: 6 <= i < 12 ==> MonthAbbrevs[i] in MonthDict && MonthDict[MonthAbbrevs[i]] == MonthStrings[i]
  {
    assert MonthAbbrevs[6] == "JUL" && MonthDict["JUL"] == "07";
    assert MonthAbbrevs[7] == "AUG" && MonthDict["AUG"] == "08";
    assert MonthAbbrevs[8] == "SEP" && MonthDict["SEP"] == "09";
    assert MonthAbbrevs[9] == "OCT" && MonthDict["OCT"] == "10";
    assert MonthAbbrevs[10] == "NOV" && MonthDict["NOV"] == "11";
    assert MonthAbbrevs[11] == "DEC" && MonthDict["DEC"] == "12";
  }

  /** `month_dict` has no key besides the twelve abbreviations. */
  lemma MonthDictKeys(a: string)
    ensures a in MonthDict <==> a in MonthAbbrevs
  {
  }

  /** `f"{year}_{month}_{region}_{variable}.npz"` (with `month` already formatted). */
  function ArchiveFileName(year: int, month: string, region: string, variable: string): string
  {
    Decimal(year) + "_" + month + "_" + region + "_" + variable + ".npz"
  }

  /** `f"{year}_{month}_{region}_{variable}_average.nc"`. */
  function MeanFileName(year: int, month: string, region: string, variable: string): string
  {
    Decimal(year) + "_" + month + "_" + region + "_" + variable + "_average.nc"
  }

  lemma DecimalNoUnderscore(n: int)
    ensures '_' !in Decimal(n) && |Decimal(n)| >= 1
  {
    var d := NatDecimal(if n < 0 then -n else n);
    assert forall k :: 0 <= k < |d| ==> d[k] != '_';
  }

  /** `str` puts a minus sign first exactly for negative numbers. */
  lemma DecimalSign(n: int)
    ensures |Decimal(n)| >= 1 && (Decimal(n)[0] == '-' <==> n < 0)
  {
    var d := NatDecimal(if n < 0 then -n else n);
    assert IsDigit(d[0]);
  }

  /** `str` is injective on integers. */
  lemma DecimalInjective(a: int, b: int)
    requires Decimal(a) == Decimal(b)
    ensures a == b
  {
    DecimalSign(a);
    DecimalSign(b);
    if a < 0 {
      assert b < 0;
      assert NatDecimal(-a) == NatDecimal(-b) by {
        assert Decimal(a)[1..] == NatDecimal(-a);
        assert Decimal(b)[1..] == NatDecimal(-b);
      }
      NatDecimalInjective(-a, -b);
    } else {
      NatDecimalInjective(a, b);
    }
  }

  lemma NatDecimalInjective(a: nat, b: nat)
    requires NatDecimal(a) == NatDecimal(b)
    ensures a == b
  {
    ParseNatDecimal(a);
    ParseNatDecimal(b);
  }

  /** In `a + [sep] + x` with no `sep` in `a`, the first `sep` is at |a|. */
  lemma SeparatorPosition(a: string, x: string, sep: char)
    requires sep !in a
    ensures (a + [sep] + x)[|a|] == sep
    ensures forall k :: 0 <= k < |a| ==> (a + [sep] + x)[k] != sep
  {
  }

  /** A separator that occurs in neither prefix splits a string in one way only. */
  lemma SplitAtSeparator(a: string, x: string, b: string, y: string, sep: char)
    requires sep !in a && sep !in b
    requires a + [sep] + x == b + [sep] + y
    ensures a == b && x == y
  {
    var s := a + [sep] + x;
    SeparatorPosition(a, x, sep);
    SeparatorPosition(b, y, sep);
    assert |a| == |b|;
    assert a == s[..|a|] == b;
    assert x == s[|a| + 1..] == y;
  }

  lemma SamePrefix(p: string, t: string, q: string, u: string)
    requires p + t == q + u && |p| == |q|
    ensures p == q && t == u
  {
    assert p == (p + t)[..|p|] == (q + u)[..|q|] == q;
    assert t == (p + t)[|p|..] == (q + u)[|q|..] == u;
  }

  /** Different (year, month) keys give different archive names for a region and variable,
      so no month's archive overwrites another's. */
  lemma ArchiveFileNameInjective(y1: int, m1: int, y2: int, m2: int, region: string, variable: string)
    requires 1 <= m1 <= 12 && 1 <= m2 <= 12
    requires ArchiveFileName(y1, TwoDigits(m1), region, variable) == ArchiveFileName(y2, TwoDigits(m2), region, variable)
    ensures y1 == y2 && m1 == m2
  {
    var tail := "_" + region + "_" + variable + ".npz";
    ArchiveFileNameSplit(y1, TwoDigits(m1), y2, TwoDigits(m2), region, variable);
    TwoDigitsRoundTrip(m1);
    TwoDigitsRoundTrip(m2);
    SamePrefix(TwoDigits(m1), tail, TwoDigits(m2), tail);
  }

  /** The year is recovered from an archive name up to the first underscore. */
  lemma ArchiveFileNameSplit(y1: int, t1: string, y2: int, t2: string, region: string, variable: string)
    requires ArchiveFileName(y1, t1, region, variable) == ArchiveFileName(y2, t2, region, variable)
    ensures y1 == y2
    ensures t1 + ("_" + region + "_" + variable + ".npz") == t2 + ("_" + region + "_" + variable + ".npz")
  {
    var tail := "_" + region + "_" + variable + ".npz";
    ArchiveShape(y1, t1, region, variable);
    ArchiveShape(y2, t2, region, variable);
    assert Decimal(y1) == Decimal(y2) && t1 + tail == t2 + tail by {
      DecimalNoUnderscore(y1);
      DecimalNoUnderscore(y2);
      SplitAtSeparator(Decimal(y1), t1 + tail, Decimal(y2), t2 + tail, '_');
    }
    DecimalInjective(y1, y2);
  }

  lemma ArchiveShape(year: int, month: string, region: string, variable: string)
    ensures ArchiveFileName(year, month, region, variable) ==
              Decimal(year) + ['_'] + (month + ("_" + region + "_" + variable + ".npz"))
  {
    var tail := "_" + region + "_" + variable + ".npz";
    assert Decimal(year) + "_" + month + "_" + region + "_" + variable + ".npz" ==
           Decimal(year) + "_" + month + tail;
  }

  /** The archive and the mean of one unit never share a file name. */
  lemma ArchiveAndMeanNamesDiffer(year: int, month: string, region: string, variable: string)
    ensures ArchiveFileName(year, month, region, variable) != MeanFileName(year, month, region, variable)
  {
    var a := ArchiveFileName(year, month, region, variable);
    var m := MeanFileName(year, month, region, variable);
    assert a[|a| - 1] == 'z';
    assert m[|m| - 1] == 'c';
  }
}
