/** Precipitation-event segmentation (`analyze_precipitation_data` in
    examine_chosen_precipitation_events.py): a series of readings is cut into
    events at every reading of at most 0.89, each event is summarised by its
    first and last timestamp and its total, events without duration or without
    precipitation are dropped, the rest are ranked and scored, and the events
    touching the given dates are reported once each. */
module PrecipEvents {
  import opened Common

  // ---------------------------------------------------------------------
  // Break flags and event identifiers
  // ---------------------------------------------------------------------

  /** One CSV row: the timestamp in seconds and the precipitation value. */
  datatype Reading = Reading(time: int, precip: real)

  const BreakThreshold: real := 0.89

  /** `data['IsBreak'] = data['Precipitation'] <= 0.89`. */
  predicate IsBreak(r: Reading)
  {
    r.precip <= BreakThreshold
  }

  function BreakBit(r: Reading): nat
  {
    if IsBreak(r) then 1 else 0
  }

  /** The number of break rows. */
  function Breaks(rows: seq<Reading>): nat
  {
    if rows == [] then 0 else Breaks(rows[..|rows| - 1]) + BreakBit(rows[|rows| - 1])
  }

  /** `data['IsBreak'].cumsum()`: the running total of the flags. */
  function EventIds(rows: seq<Reading>): (ids: seq<nat>)
    ensures |ids| == |rows|
  {
    if rows == [] then []
    else
      var prev := EventIds(rows[..|rows| - 1]);
      var running := if prev == [] then 0 else prev[|prev| - 1];
      prev + [running + BreakBit(rows[|rows| - 1])]
  }

  /** A row's event ID is the number of break rows at or before it. */
  lemma {:induction false} EventIdsCountBreaks(rows: seq<Reading>)
    ensures forall i :: 0 <= i < |rows| ==> EventIds(rows)[i] == Breaks(rows[..i + 1])
  {
    if rows != [] {
      var n := |rows|;
      var init := rows[..n - 1];
      EventIdsCountBreaks(init);
      forall i | 0 <= i < n - 1
        ensures EventIds(rows)[i] == Breaks(rows[..i + 1])
      {
        assert init[..i + 1] == rows[..i + 1];
      }
      assert rows[..n] == rows;
      assert rows[..n][..n - 1] == init;
      if n > 1 {
        assert init[..n - 1] == init;
      }
    }
  }

  /** The ID rises by one at a break row and stays the same at any other row;
      the first row has ID 1 if it is a break and 0 otherwise. */
  lemma EventIdsStep(rows: seq<Reading>, i: nat)
    requires i < |rows|
    ensures EventIds(rows)[i] == (if i == 0 then 0 else EventIds(rows)[i - 1]) + BreakBit(rows[i])
  {
    EventIdsCountBreaks(rows);
    assert rows[..i + 1][..i] == rows[..i];
  }

  /** Event IDs never decrease. */
  lemma EventIdsMonotone(rows: seq<Reading>)
    ensures forall i, j :: 0 <= i <= j < |rows| ==> EventIds(rows)[i] <= EventIds(rows)[j]
  {
    forall i, j | 0 <= i <= j < |rows|
      ensures EventIds(rows)[i] <= EventIds(rows)[j]
    {
      MonotoneFrom(rows, i, j);
    }
  }

  lemma {:induction false} MonotoneFrom(rows: seq<Reading>, i: nat, j: nat)
    requires i <= j < |rows|
    ensures EventIds(rows)[i] <= EventIds(rows)[j]
    decreases j - i
  {
    if i < j {
      MonotoneFrom(rows, i, j - 1);
      EventIdsStep(rows, j);
    }
  }

  lemma {:induction false} BreaksZero(rows: seq<Reading>)
    ensures Breaks(rows) == 0 <==> forall j :: 0 <= j < |rows| ==> !IsBreak(rows[j])
  {
    if rows != [] {
      var init := rows[..|rows| - 1];
      BreaksZero(init);
      assert forall j :: 0 <= j < |init| ==> init[j] == rows[j];
    }
  }

  /** Rows before the first break all belong to event 0; a break row opens a new
      event instead of closing the previous one. */
  lemma BeforeFirstBreak(rows: seq<Reading>, i: nat)
    requires i < |rows|
    ensures EventIds(rows)[i] == 0 <==> forall j :: 0 <= j <= i ==> !IsBreak(rows[j])
    ensures IsBreak(rows[i]) ==> EventIds(rows)[i] >= 1 && (i > 0 ==> EventIds(rows)[i] == EventIds(rows)[i - 1] + 1)
  {
    EventIdsCountBreaks(rows);
    BreaksZero(rows[..i + 1]);
    assert forall j :: 0 <= j <= i ==> rows[..i + 1][j] == rows[j];
    EventIdsStep(rows, i);
  }

  // ---------------------------------------------------------------------
  // Labelled rows and the group-by
  // ---------------------------------------------------------------------

  /** A row with its `EventID` column. */
  datatype Row = Row(time: int, precip: real, eventId: nat)

  function Label(rows: seq<Reading>): (r: seq<Row>)
    ensures |r| == |rows|
    ensures forall i :: 0 <= i < |rows| ==> r[i] == Row(rows[i].time, rows[i].precip, EventIds(rows)[i])
  {
    var ids := EventIds(rows);
    seq(|rows|, i requires 0 <= i < |rows| => Row(rows[i].time, rows[i].precip, ids[i]))
  }

  predicate IdsSorted(rs: seq<Row>)
  {
    forall i, j :: 0 <= i <= j < |rs| ==> rs[i].eventId <= rs[j].eventId
  }

  lemma LabelSorted(rows: seq<Reading>)
    ensures IdsSorted(Label(rows))
  {
    EventIdsMonotone(rows);
  }

  /** One row of `event_totals`: the event's ID, first and last timestamp, and total. */
  datatype Event = Event(id: nat, start: int, end: int, total: real)

  /** `groupby('EventID').agg(first, last, sum)` over rows whose IDs never decrease:
      a row either extends the last event or opens the next. */
  function GroupBy(rs: seq<Row>): (es: seq<Event>)
    ensures |es| <= |rs|
    ensures rs != [] ==> es != [] && es[|es| - 1].id == rs[|rs| - 1].eventId
  {
    if rs == [] then []
    else
      var prev := GroupBy(rs[..|rs| - 1]);
      var r := rs[|rs| - 1];
      if prev != [] && prev[|prev| - 1].id == r.eventId then
        var g := prev[|prev| - 1];
        prev[..|prev| - 1] + [Event(g.id, g.start, r.time, g.total + r.precip)]
      else
        prev + [Event(r.eventId, r.time, r.time, r.precip)]
  }

  // Reference definitions of the three aggregates, one key at a time.

  /** `first` of the Timestamp column within key `k`. */
  function FirstTime(rs: seq<Row>, k: nat): Option<int>
  {
    if rs == [] then None
    else
      var p := FirstTime(rs[..|rs| - 1], k);
      if p.Some? then p else if rs[|rs| - 1].eventId == k then Some(rs[|rs| - 1].time) else None
  }

  /** `last` of the Timestamp column within key `k`. */
  function LastTime(rs: seq<Row>, k: nat): Option<int>
  {
    if rs == [] then None
    else if rs[|rs| - 1].eventId == k then Some(rs[|rs| - 1].time)
    else LastTime(rs[..|rs| - 1], k)
  }

  /** `sum` of the Precipitation column within key `k`. */
  function KeyTotal(rs: seq<Row>, k: nat): real
  {
    if rs == [] then 0.0
    else KeyTotal(rs[..|rs| - 1], k) + (if rs[|rs| - 1].eventId == k then rs[|rs| - 1].precip else 0.0)
  }

  /** The number of rows with key `k`. */
  function KeyCount(rs: seq<Row>, k: nat): nat
  {
    if rs == [] then 0
    else KeyCount(rs[..|rs| - 1], k) + (if rs[|rs| - 1].eventId == k then 1 else 0)
  }

  /** The keys that occur. */
  function Keys(rs: seq<Row>): set<nat>
  {
    if rs == [] then {} else Keys(rs[..|rs| - 1]) + {rs[|rs| - 1].eventId}
  }

  function EventKeys(es: seq<Event>): set<nat>
  {
    if es == [] then {} else EventKeys(es[..|es| - 1]) + {es[|es| - 1].id}
  }

  /** `g` agrees with the reference aggregates of its key. */
  predicate GroupFacts(rs: seq<Row>, g: Event)
  {
    FirstTime(rs, g.id) == Some(g.start) && LastTime(rs, g.id) == Some(g.end) &&
    KeyTotal(rs, g.id) == g.total && KeyCount(rs, g.id) >= 1
  }

  lemma {:induction false} AbsentKey(rs: seq<Row>, k: nat)
    requires forall i :: 0 <= i < |rs| ==> rs[i].eventId != k
    ensures FirstTime(rs, k) == None && LastTime(rs, k) == None && KeyTotal(rs, k) == 0.0 && KeyCount(rs, k) == 0
  {
    if rs != [] {
      var init := rs[..|rs| - 1];
      assert forall i :: 0 <= i < |init| ==> init[i] == rs[i];
      AbsentKey(init, k);
    }
  }

  /** A row with a different key leaves the aggregates of `k` as they were. */
  lemma OtherKeyRow(rs: seq<Row>, k: nat)
    requires rs != [] && rs[|rs| - 1].eventId != k
    requires FirstTime(rs[..|rs| - 1], k).Some?
    ensures FirstTime(rs, k) == FirstTime(rs[..|rs| - 1], k)
    ensures LastTime(rs, k) == LastTime(rs[..|rs| - 1], k)
    ensures KeyTotal(rs, k) == KeyTotal(rs[..|rs| - 1], k)
    ensures KeyCount(rs, k) == KeyCount(rs[..|rs| - 1], k)
  {
  }

  /** The events' keys are strictly ascending and the last event has the last row's key. */
  lemma {:induction false} GroupByAscending(rs: seq<Row>)
    requires IdsSorted(rs)
    ensures forall p, q :: 0 <= p < q < |GroupBy(rs)| ==> GroupBy(rs)[p].id < GroupBy(rs)[q].id
    ensures rs != [] ==> forall p :: 0 <= p < |GroupBy(rs)| ==> GroupBy(rs)[p].id <= rs[|rs| - 1].eventId
  {
    if rs != [] {
      var init := rs[..|rs| - 1];
      var r := rs[|rs| - 1];
      assert IdsSorted(init);
      GroupByAscending(init);
      var prev := GroupBy(init);
      if init != [] {
        assert init[|init| - 1].eventId <= r.eventId;
      }
    }
  }

  /** The events cover exactly the keys that occur. */
  lemma {:induction false} GroupByKeys(rs: seq<Row>)
    ensures EventKeys(GroupBy(rs)) == Keys(rs)
  {
    if rs != [] {
      var init := rs[..|rs| - 1];
      var r := rs[|rs| - 1];
      GroupByKeys(init);
      var prev := GroupBy(init);
      var es := GroupBy(rs);
      assert Keys(rs) == Keys(init) + {r.eventId};
      if prev != [] && prev[|prev| - 1].id == r.eventId {
        var g := prev[|prev| - 1];
        var g' := Event(g.id, g.start, r.time, g.total + r.precip);
        assert es == prev[..|prev| - 1] + [g'];
        EventKeysReplaceLast(prev, g');
        EventKeysHasLast(prev);
        assert EventKeys(es) == EventKeys(prev);
      } else {
        var g' := Event(r.eventId, r.time, r.time, r.precip);
        assert es == prev + [g'];
        assert es[..|es| - 1] == prev;
        assert EventKeys(es) == EventKeys(prev) + {r.eventId};
      }
    }
  }

  lemma EventKeysHasLast(es: seq<Event>)
    requires es != []
    ensures es[|es| - 1].id in EventKeys(es)
  {
  }

  /** Each event agrees with the reference aggregates of its key: the first and last
      timestamp and the total of the rows with that key. */
  lemma {:induction false} GroupByFacts(rs: seq<Row>)
    requires IdsSorted(rs)
    ensures forall p :: 0 <= p < |GroupBy(rs)| ==> GroupFacts(rs, GroupBy(rs)[p])
  {
    if rs != [] {
      var init := rs[..|rs| - 1];
      var r := rs[|rs| - 1];
      assert IdsSorted(init);
      GroupByFacts(init);
      GroupByAscending(init);
      var prev := GroupBy(init);
      var es := GroupBy(rs);
      if prev != [] && prev[|prev| - 1].id == r.eventId {
        var g := prev[|prev| - 1];
        assert es == prev[..|prev| - 1] + [Event(g.id, g.start, r.time, g.total + r.precip)];
        forall p | 0 <= p < |es|
          ensures GroupFacts(rs, es[p])
        {
          if p < |prev| - 1 {
            assert es[p] == prev[p];
            OtherKeyRow(rs, prev[p].id);
          }
        }
      } else {
        assert es == prev + [Event(r.eventId, r.time, r.time, r.precip)];
        if init != [] {
          assert forall i :: 0 <= i < |init| ==> init[i].eventId <= init[|init| - 1].eventId;
          assert init[|init| - 1].eventId == prev[|prev| - 1].id;
        }
        AbsentKey(init, r.eventId);
        forall p | 0 <= p < |es|
          ensures GroupFacts(rs, es[p])
        {
          if p < |prev| {
            assert es[p] == prev[p];
            OtherKeyRow(rs, prev[p].id);
          }
        }
      }
    }
  }

  lemma EventKeysReplaceLast(es: seq<Event>, g: Event)
    requires es != [] && es[|es| - 1].id == g.id
    ensures EventKeys(es[..|es| - 1] + [g]) == EventKeys(es)
  {
    assert (es[..|es| - 1] + [g])[..|es| - 1] == es[..|es| - 1];
  }

  /** A key with a single row has the same first and last timestamp. */
  lemma {:induction false} SingleRowKey(rs: seq<Row>, k: nat)
    requires KeyCount(rs, k) == 1
    ensures FirstTime(rs, k).Some? && FirstTime(rs, k) == LastTime(rs, k)
  {
    var init := rs[..|rs| - 1];
    if rs[|rs| - 1].eventId == k {
      NoRowsNoFirst(init, k);
    } else {
      SingleRowKey(init, k);
    }
  }

  lemma {:induction false} NoRowsNoFirst(rs: seq<Row>, k: nat)
    requires KeyCount(rs, k) == 0
    ensures FirstTime(rs, k) == None
  {
    if rs != [] {
      NoRowsNoFirst(rs[..|rs| - 1], k);
    }
  }

  function SumTotals(es: seq<Event>): real
  {
    if es == [] then 0.0 else SumTotals(es[..|es| - 1]) + es[|es| - 1].total
  }

  function SumPrecip(rs: seq<Row>): real
  {
    if rs == [] then 0.0 else SumPrecip(rs[..|rs| - 1]) + rs[|rs| - 1].precip
  }

  /** The per-event totals add up to the column total. */
  lemma {:induction false} GroupByConservesTotal(rs: seq<Row>)
    ensures SumTotals(GroupBy(rs)) == SumPrecip(rs)
  {
    if rs != [] {
      var init := rs[..|rs| - 1];
      var r := rs[|rs| - 1];
      GroupByConservesTotal(init);
      var prev := GroupBy(init);
      if prev != [] && prev[|prev| - 1].id == r.eventId {
        var g := prev[|prev| - 1];
        var es := prev[..|prev| - 1] + [Event(g.id, g.start, r.time, g.total + r.precip)];
        assert es[..|es| - 1] == prev[..|prev| - 1];
      } else {
        var es := prev + [Event(r.eventId, r.time, r.time, r.precip)];
        assert es[..|es| - 1] == prev;
      }
    }
  }

  // ---------------------------------------------------------------------
  // Duration and the two filters
  // ---------------------------------------------------------------------

  /** `(End - Start).dt.total_seconds() / 3600`. */
  function DurationHours(e: Event): real
  {
    (e.end - e.start) as real / 3600.0
  }

  /** `DurationHours > 0`. */
  predicate Lasting(e: Event)
  {
    DurationHours(e) > 0.0
  }

  /** `TotalPrecipitation > 0`. */
  predicate Wet(e: Event)
  {
    e.total > 0.0
  }

  lemma LastingIffLater(e: Event)
    ensures Lasting(e) <==> e.end > e.start
  {
  }

  /** A boolean mask over rows, order kept. */
  function Filter<T>(xs: seq<T>, keep: T -> bool): seq<T>
  {
    if xs == [] then []
    else Filter(xs[..|xs| - 1], keep) + (if keep(xs[|xs| - 1]) then [xs[|xs| - 1]] else [])
  }

  lemma {:induction false} FilterMembers<T>(xs: seq<T>, keep: T -> bool)
    ensures |Filter(xs, keep)| <= |xs|
    ensures forall x :: x in Filter(xs, keep) <==> x in xs && keep(x)
  {
    if xs != [] {
      var init := xs[..|xs| - 1];
      FilterMembers(init, keep);
      assert xs == init + [xs[|xs| - 1]];
    }
  }

  /** The events that survive both filters. */
  function Kept(es: seq<Event>): (r: seq<Event>)
    ensures forall i :: 0 <= i < |r| ==> Lasting(r[i]) && Wet(r[i])
  {
    FilterMembers(es, Lasting);
    FilterMembers(Filter(es, Lasting), Wet);
    Filter(Filter(es, Lasting), Wet)
  }

  /** An event survives iff it lasts more than zero hours and has positive total; a
      surviving event of a series spans at least two rows, so one-row events never survive. */
  lemma KeptEvents(rows: seq<Reading>, e: Event)
    ensures e in Kept(GroupBy(Label(rows))) <==> e in GroupBy(Label(rows)) && e.end > e.start && e.total > 0.0
    ensures e in Kept(GroupBy(Label(rows))) ==> GroupFacts(Label(rows), e) && KeyCount(Label(rows), e.id) >= 2
  {
    var es := GroupBy(Label(rows));
    FilterMembers(es, Lasting);
    FilterMembers(Filter(es, Lasting), Wet);
    LastingIffLater(e);
    if e in Kept(es) {
      LabelSorted(rows);
      GroupByFacts(Label(rows));
      var p :| 0 <= p < |es| && es[p] == e;
      assert GroupFacts(Label(rows), es[p]);
      if KeyCount(Label(rows), e.id) == 1 {
        SingleRowKey(Label(rows), e.id);
      }
    }
  }

  // ---------------------------------------------------------------------
  // Ranking
  // ---------------------------------------------------------------------

  /** How many values are strictly above `v`. */
  function Above(vs: seq<real>, v: real): nat
  {
    if vs == [] then 0 else Above(vs[..|vs| - 1], v) + (if vs[|vs| - 1] > v then 1 else 0)
  }

  /** How many values equal `v`. */
  function Ties(vs: seq<real>, v: real): nat
  {
    if vs == [] then 0 else Ties(vs[..|vs| - 1], v) + (if vs[|vs| - 1] == v then 1 else 0)
  }

  /** `rank(ascending=False)` with the default `average` tie rule: the tied values
      would occupy places Above + 1 .. Above + Ties, and share their mean. */
  function Rank(vs: seq<real>, i: nat): real
    requires i < |vs|
  {
    Above(vs, vs[i]) as real + (Ties(vs, vs[i]) + 1) as real / 2.0
  }

  function Ranks(vs: seq<real>): (r: seq<real>)
    ensures |r| == |vs|
    ensures forall i :: 0 <= i < |vs| ==> r[i] == Rank(vs, i)
  {
    seq(|vs|, i requires 0 <= i < |vs| => Rank(vs, i))
  }

  lemma {:induction false} TiesSelf(vs: seq<real>, i: nat)
    requires i < |vs|
    ensures Ties(vs, vs[i]) >= 1
  {
    var init := vs[..|vs| - 1];
    if i < |vs| - 1 {
      TiesSelf(init, i);
    }
  }

  lemma {:induction false} AboveTiesBound(vs: seq<real>, v: real)
    ensures Above(vs, v) + Ties(vs, v) <= |vs|
  {
    if vs != [] {
      AboveTiesBound(vs[..|vs| - 1], v);
    }
  }

  /** Everything at or above `a` is strictly above any smaller `b`. */
  lemma {:induction false} AboveLower(vs: seq<real>, a: real, b: real)
    requires a > b
    ensures Above(vs, b) >= Above(vs, a) + Ties(vs, a)
  {
    if vs != [] {
      AboveLower(vs[..|vs| - 1], a, b);
    }
  }

  lemma {:induction false} NoneAbove(vs: seq<real>, v: real)
    requires forall j :: 0 <= j < |vs| ==> vs[j] <= v
    ensures Above(vs, v) == 0
  {
    if vs != [] {
      var init := vs[..|vs| - 1];
      assert forall j :: 0 <= j < |init| ==> init[j] == vs[j];
      NoneAbove(init, v);
    }
  }

  lemma {:induction false} NoTies(vs: seq<real>, v: real)
    requires forall j :: 0 <= j < |vs| ==> vs[j] != v
    ensures Ties(vs, v) == 0
  {
    if vs != [] {
      var init := vs[..|vs| - 1];
      assert forall j :: 0 <= j < |init| ==> init[j] == vs[j];
      NoTies(init, v);
    }
  }

  lemma {:induction false} SingleTie(vs: seq<real>, i: nat)
    requires i < |vs| && forall j :: 0 <= j < |vs| && j != i ==> vs[j] != vs[i]
    ensures Ties(vs, vs[i]) == 1
  {
    var init := vs[..|vs| - 1];
    assert forall j :: 0 <= j < |init| ==> init[j] == vs[j];
    if i == |vs| - 1 {
      NoTies(init, vs[i]);
    } else {
      SingleTie(init, i);
    }
  }

  /** Ranks lie between 1 and the number of values, larger values get smaller
      ranks, equal values share one rank, and a strict maximum gets rank 1. */
  lemma RankSpec(vs: seq<real>, i: nat, j: nat)
    requires i < |vs| && j < |vs|
    ensures 1.0 <= Rank(vs, i) <= |vs| as real
    ensures vs[i] > vs[j] ==> Rank(vs, i) < Rank(vs, j)
    ensures vs[i] == vs[j] ==> Rank(vs, i) == Rank(vs, j)
    ensures (forall k :: 0 <= k < |vs| && k != i ==> vs[k] < vs[i]) ==> Rank(vs, i) == 1.0
  {
    TiesSelf(vs, i);
    TiesSelf(vs, j);
    AboveTiesBound(vs, vs[i]);
    if vs[i] > vs[j] {
      AboveLower(vs, vs[i], vs[j]);
    }
    if forall k :: 0 <= k < |vs| && k != i ==> vs[k] < vs[i] {
      NoneAbove(vs, vs[i]);
      SingleTie(vs, i);
    }
  }

  // ---------------------------------------------------------------------
  // Ranked events of one file
  // ---------------------------------------------------------------------

  /** A row of `ranked_events`. */
  datatype RankedEvent = RankedEvent(event: Event, durationHours: real, averageRate: real,
                                     totalRank: real, rateRank: real, score: real)

  /** `TotalPrecipitation / DurationHours` (mm per hour). */
  function AverageRate(e: Event): real
    requires Lasting(e)
  {
    e.total / DurationHours(e)
  }

  function Totals(es: seq<Event>): (r: seq<real>)
    ensures |r| == |es| && forall i :: 0 <= i < |es| ==> r[i] == es[i].total
  {
    seq(|es|, i requires 0 <= i < |es| => es[i].total)
  }

  function Rates(es: seq<Event>): (r: seq<real>)
    requires forall i :: 0 <= i < |es| ==> Lasting(es[i])
    ensures |r| == |es| && forall i :: 0 <= i < |es| ==> r[i] == AverageRate(es[i])
  {
    seq(|es|, i requires 0 <= i < |es| => AverageRate(es[i]))
  }

  /** The weighted score as written: the 10% term ranks the totals a second time. */
  function Score(totalRank: real, rateRank: real, totalRankAgain: real): real
  {
    0.45 * totalRank + 0.45 * rateRank + 0.10 * totalRankAgain
  }

  /** Ranks within one file's surviving events, and the weighted score. */
  function RankEvents(es: seq<Event>): (r: seq<RankedEvent>)
    requires forall i :: 0 <= i < |es| ==> Lasting(es[i])
    ensures |r| == |es|
    ensures forall i :: 0 <= i < |es| ==> r[i].event == es[i]
  {
    var totalRanks := Ranks(Totals(es));
    var rateRanks := Ranks(Rates(es));
    seq(|es|, i requires 0 <= i < |es| =>
      RankedEvent(es[i], DurationHours(es[i]), AverageRate(es[i]), totalRanks[i], rateRanks[i],
                  Score(totalRanks[i], rateRanks[i], Ranks(Totals(es))[i])))
  }

  /** The total-precipitation rank orders events by total and the rate rank by average
      rate (largest first, ties shared); the score is 0.55 x the total rank plus 0.45 x
      the rate rank, so it lies between 1 and the number of events. */
  lemma RankEventsSpec(es: seq<Event>, i: nat, j: nat)
    requires forall k :: 0 <= k < |es| ==> Lasting(es[k])
    requires i < |es| && j < |es|
    ensures var r := RankEvents(es);
              r[i].averageRate == es[i].total / DurationHours(es[i]) &&
              1.0 <= r[i].totalRank <= |es| as real && 1.0 <= r[i].rateRank <= |es| as real &&
              (es[i].total > es[j].total ==> r[i].totalRank < r[j].totalRank) &&
              (es[i].total == es[j].total ==> r[i].totalRank == r[j].totalRank) &&
              (AverageRate(es[i]) > AverageRate(es[j]) ==> r[i].rateRank < r[j].rateRank) &&
              (AverageRate(es[i]) == AverageRate(es[j]) ==> r[i].rateRank == r[j].rateRank) &&
              r[i].score == 0.55 * r[i].totalRank + 0.45 * r[i].rateRank &&
              1.0 <= r[i].score <= |es| as real
  {
    RankSpec(Totals(es), i, j);
    RankSpec(Rates(es), i, j);
  }

  // ---------------------------------------------------------------------
  // All files
  // ---------------------------------------------------------------------

  /** The ranked events of one file's rows. */
  function FileEvents(rows: seq<Reading>): seq<RankedEvent>
  {
    RankEvents(Kept(GroupBy(Label(rows))))
  }

  /** Each file's ranked events, file by file. */
  function PerFile(files: seq<seq<Reading>>): (r: seq<seq<RankedEvent>>)
    ensures |r| == |files| && forall f :: 0 <= f < |files| ==> r[f] == FileEvents(files[f])
  {
    seq(|files|, f requires 0 <= f < |files| => FileEvents(files[f]))
  }

  /** `all_events`: the ranked events of every file, file after file. */
  function AllEvents(files: seq<seq<Reading>>): seq<RankedEvent>
  {
    Concat(PerFile(files))
  }

  /** An event is collected iff it is a ranked event of one of the files. */
  lemma AllEventsMembers(files: seq<seq<Reading>>, x: RankedEvent)
    ensures x in AllEvents(files) <==> exists f :: 0 <= f < |files| && x in FileEvents(files[f])
  {
    ConcatMembers(PerFile(files), x);
  }

  /** Adding a file appends its ranked events after those already collected. */
  lemma AllEventsStep(files: seq<seq<Reading>>, n: nat)
    requires n < |files|
    ensures AllEvents(files[..n + 1]) == AllEvents(files[..n]) + FileEvents(files[n])
  {
    var p := PerFile(files[..n + 1]);
    assert p[..n] == PerFile(files[..n]);
  }

  /** The loop over the files: `all_events` grows by each file's ranked events, and
      `data` is left holding the last file's labelled rows. */
  method CollectEvents(files: seq<seq<Reading>>) returns (allEvents: seq<RankedEvent>, data: Option<seq<Row>>)
    ensures allEvents == AllEvents(files)
    ensures data == if files == [] then None else Some(Label(files[|files| - 1]))
  {
    allEvents := [];
    data := None;
    for n := 0 to |files|
      invariant allEvents == AllEvents(files[..n])
      invariant data == if n == 0 then None else Some(Label(files[n - 1]))
    {
      var labelled := Label(files[n]);
      data := Some(labelled);
      var eventTotals := GroupBy(labelled);
      var rankedEvents := RankEvents(Kept(eventTotals));
      AllEventsStep(files, n);
      allEvents := allEvents + rankedEvents;
    }
    assert files[..|files|] == files;
  }

  // ---------------------------------------------------------------------
  // Merge, date filter, one row per event
  // ---------------------------------------------------------------------

  /** A row of `merged_data`: a row of `data` and the event it matched, if any. */
  datatype Merged = Merged(row: Row, event: Option<RankedEvent>)

  /** The collected events with a given ID, in collection order. */
  function Matches(events: seq<RankedEvent>, id: nat): seq<RankedEvent>
  {
    if events == [] then []
    else Matches(events[..|events| - 1], id) +
         (if events[|events| - 1].event.id == id then [events[|events| - 1]] else [])
  }

  lemma {:induction false} MatchesMembers(events: seq<RankedEvent>, id: nat, x: RankedEvent)
    ensures x in Matches(events, id) <==> x in events && x.event.id == id
  {
    if events != [] {
      var init := events[..|events| - 1];
      MatchesMembers(init, id, x);
      assert events == init + [events[|events| - 1]];
    }
  }

  /** One left row: one merged row per match, or a single row without an event. */
  function MergeRow(r: Row, events: seq<RankedEvent>): (m: seq<Merged>)
    ensures |m| >= 1 && forall k :: 0 <= k < |m| ==> m[k].row == r
  {
    var found := Matches(events, r.eventId);
    if found == [] then [Merged(r, None)]
    else seq(|found|, k requires 0 <= k < |found| => Merged(r, Some(found[k])))
  }

  /** `data.merge(all_events, on='EventID', how='left')`: left rows in order. */
  function LeftMerge(rs: seq<Row>, events: seq<RankedEvent>): seq<Merged>
  {
    if rs == [] then [] else LeftMerge(rs[..|rs| - 1], events) + MergeRow(rs[|rs| - 1], events)
  }

  /** A merged row carries an event with its own ID when one was collected, and no
      event exactly when none was. */
  predicate Joined(m: Merged, events: seq<RankedEvent>)
  {
    (m.event.Some? ==> m.event.value in events && m.event.value.event.id == m.row.eventId) &&
    (m.event.None? <==> forall k :: 0 <= k < |events| ==> events[k].event.id != m.row.eventId)
  }

  lemma MergeRowSpec(r: Row, events: seq<RankedEvent>)
    ensures forall k :: 0 <= k < |MergeRow(r, events)| ==>
              MergeRow(r, events)[k].row == r && Joined(MergeRow(r, events)[k], events)
  {
    var found := Matches(events, r.eventId);
    forall x | true
      ensures x in found <==> x in events && x.event.id == r.eventId
    {
      MatchesMembers(events, r.eventId, x);
    }
    if found != [] {
      assert found[0] in found;
    }
  }

  /** Every merged row comes from a left row. */
  lemma {:induction false} LeftMergeRows(rs: seq<Row>, events: seq<RankedEvent>)
    ensures forall k :: 0 <= k < |LeftMerge(rs, events)| ==> LeftMerge(rs, events)[k].row in rs
  {
    if rs != [] {
      var init := rs[..|rs| - 1];
      LeftMergeRows(init, events);
      var a := LeftMerge(init, events);
      var b := MergeRow(rs[|rs| - 1], events);
      var m: seq<Merged> := a + b;
      assert LeftMerge(rs, events) == m;
      forall k | 0 <= k < |m|
        ensures m[k].row in rs
      {
        if k < |a| {
          assert m[k] == a[k];
          assert a[k].row in init;
        } else {
          assert m[k] == b[k - |a|];
        }
      }
    }
  }

  /** Every merged row is joined with its event. */
  lemma {:induction false} LeftMergeJoined(rs: seq<Row>, events: seq<RankedEvent>)
    ensures forall k :: 0 <= k < |LeftMerge(rs, events)| ==> Joined(LeftMerge(rs, events)[k], events)
  {
    if rs != [] {
      var init := rs[..|rs| - 1];
      LeftMergeJoined(init, events);
      MergeRowSpec(rs[|rs| - 1], events);
      var a := LeftMerge(init, events);
      var b := MergeRow(rs[|rs| - 1], events);
      var m: seq<Merged> := a + b;
      assert LeftMerge(rs, events) == m;
      forall k | 0 <= k < |m|
        ensures Joined(m[k], events)
      {
        if k < |a| {
          assert m[k] == a[k];
        } else {
          assert m[k] == b[k - |a|];
        }
      }
    }
  }

  /** The last merged row comes from the last left row. */
  lemma LeftMergeLast(rs: seq<Row>, events: seq<RankedEvent>)
    requires rs != []
    ensures LeftMerge(rs, events) != []
    ensures LeftMerge(rs, events)[|LeftMerge(rs, events)| - 1].row == rs[|rs| - 1]
  {
    var a := LeftMerge(rs[..|rs| - 1], events);
    var b := MergeRow(rs[|rs| - 1], events);
    var m: seq<Merged> := a + b;
    assert m[|m| - 1] == b[|b| - 1];
  }

  /** No left row is lost. */
  lemma {:induction false} LeftMergeKeepsRows(rs: seq<Row>, events: seq<RankedEvent>)
    ensures forall i :: 0 <= i < |rs| ==>
              exists k :: 0 <= k < |LeftMerge(rs, events)| && LeftMerge(rs, events)[k].row == rs[i]
  {
    if rs != [] {
      var init := rs[..|rs| - 1];
      LeftMergeKeepsRows(init, events);
      var a := LeftMerge(init, events);
      var b := MergeRow(rs[|rs| - 1], events);
      var m: seq<Merged> := a + b;
      assert LeftMerge(rs, events) == m;
      forall i | 0 <= i < |rs|
        ensures exists k :: 0 <= k < |m| && m[k].row == rs[i]
      {
        if i < |init| {
          assert init[i] == rs[i];
          var k :| 0 <= k < |a| && a[k].row == init[i];
          assert m[k] == a[k];
        } else {
          assert m[|a|] == b[0];
        }
      }
    }
  }

  /** Merged rows follow the left rows' order, so sorted IDs stay sorted. */
  lemma {:induction false} LeftMergeSorted(rs: seq<Row>, events: seq<RankedEvent>)
    requires IdsSorted(rs)
    ensures MergedSorted(LeftMerge(rs, events))
  {
    if rs != [] {
      var init := rs[..|rs| - 1];
      var r := rs[|rs| - 1];
      assert IdsSorted(init);
      LeftMergeSorted(init, events);
      LeftMergeRows(init, events);
      var a := LeftMerge(init, events);
      var b := MergeRow(r, events);
      var m: seq<Merged> := a + b;
      assert LeftMerge(rs, events) == m;
      assert forall k :: 0 <= k < |a| ==> a[k].row.eventId <= r.eventId by {
        forall k | 0 <= k < |a|
          ensures a[k].row.eventId <= r.eventId
        {
          var i :| 0 <= i < |init| && init[i] == a[k].row;
          assert rs[i] == init[i];
        }
      }
      forall k, l | 0 <= k <= l < |m|
        ensures m[k].row.eventId <= m[l].row.eventId
      {
        if l >= |a| {
          assert m[l] == b[l - |a|];
          if k < |a| {
            assert m[k] == a[k];
          } else {
            assert m[k] == b[k - |a|];
          }
        } else {
          assert m[k] == a[k] && m[l] == a[l];
        }
      }
    }
  }

  predicate MergedSorted(ms: seq<Merged>)
  {
    forall k, l :: 0 <= k <= l < |ms| ==> ms[k].row.eventId <= ms[l].row.eventId
  }

  /** `Timestamp.dt.date` as a day number: seconds floored to whole days. */
  function Day(time: int): int
  {
    time / 86400
  }

  /** The values `Series.isin` compares by equality: a date object, or a string. */
  datatype PyValue = PyDate(day: int) | PyText(text: string)

  function TextValues(dates: seq<string>): (r: seq<PyValue>)
    ensures |r| == |dates| && forall i :: 0 <= i < |dates| ==> r[i] == PyText(dates[i])
  {
    seq(|dates|, i requires 0 <= i < |dates| => PyText(dates[i]))
  }

  function DateValues(days: seq<int>): (r: seq<PyValue>)
    ensures |r| == |days| && forall i :: 0 <= i < |days| ==> r[i] == PyDate(days[i])
  {
    seq(|days|, i requires 0 <= i < |days| => PyDate(days[i]))
  }

  /** `merged_data['Timestamp'].dt.date.isin(values)` as a row mask. */
  function OnDay(values: seq<PyValue>): Merged -> bool
  {
    (m: Merged) => PyDate(Day(m.row.time)) in values
  }

  /** The date filter as written: the dates stay strings. */
  function OnDatesAsWritten(ms: seq<Merged>, dates: seq<string>): seq<Merged>
  {
    Filter(ms, OnDay(TextValues(dates)))
  }

  /** The date filter with the dates given as calendar days. */
  function OnDates(ms: seq<Merged>, days: seq<int>): seq<Merged>
  {
    Filter(ms, OnDay(DateValues(days)))
  }

  /** As written, no date object equals a string, so the filter keeps nothing. */
  lemma {:induction false} OnDatesAsWrittenEmpty(ms: seq<Merged>, dates: seq<string>)
    ensures OnDatesAsWritten(ms, dates) == []
  {
    if ms != [] {
      OnDatesAsWrittenEmpty(ms[..|ms| - 1], dates);
      var values := TextValues(dates);
      assert forall v :: v in values ==> v.PyText?;
      assert !OnDay(values)(ms[|ms| - 1]);
    }
  }

  /** A reading on 1 January 1970 with that date requested: the corrected filter keeps
      it, the filter as written drops it. */
  lemma DateFilterCounterexample()
    ensures var ms := [Merged(Row(3600, 2.5, 0), None)];
              OnDates(ms, [0]) == ms && OnDatesAsWritten(ms, ["1970-01-01"]) == []
  {
    var ms := [Merged(Row(3600, 2.5, 0), None)];
    assert ms[..0] == [];
    assert DateValues([0]) == [PyDate(0)];
    assert OnDay(DateValues([0]))(ms[0]);
    OnDatesAsWrittenEmpty(ms, ["1970-01-01"]);
  }

  /** A merged row is kept iff its reading falls on one of the days. */
  lemma OnDatesMembers(ms: seq<Merged>, days: seq<int>, m: Merged)
    ensures |OnDates(ms, days)| <= |ms|
    ensures m in OnDates(ms, days) <==> m in ms && Day(m.row.time) in days
  {
    FilterMembers(ms, OnDay(DateValues(days)));
    assert PyDate(Day(m.row.time)) in DateValues(days) <==> Day(m.row.time) in days;
  }

  /** The event IDs of merged rows. */
  function MergedIds(ms: seq<Merged>): set<nat>
  {
    if ms == [] then {} else MergedIds(ms[..|ms| - 1]) + {ms[|ms| - 1].row.eventId}
  }

  /** The first merged row with a given ID. */
  function FirstWithId(ms: seq<Merged>, k: nat): Option<Merged>
  {
    if ms == [] then None
    else
      var p := FirstWithId(ms[..|ms| - 1], k);
      if p.Some? then p else if ms[|ms| - 1].row.eventId == k then Some(ms[|ms| - 1]) else None
  }

  /** `groupby('EventID').first()`: the first row of each event. */
  function FirstPerEvent(ms: seq<Merged>): seq<Merged>
  {
    if ms == [] then []
    else
      var prev := FirstPerEvent(ms[..|ms| - 1]);
      if ms[|ms| - 1].row.eventId in MergedIds(prev) then prev else prev + [ms[|ms| - 1]]
  }

  lemma {:induction false} FirstWithIdAbsent(ms: seq<Merged>, k: nat)
    requires k !in MergedIds(ms)
    ensures FirstWithId(ms, k) == None
  {
    if ms != [] {
      FirstWithIdAbsent(ms[..|ms| - 1], k);
    }
  }

  lemma {:induction false} FirstWithIdPresent(ms: seq<Merged>, k: nat)
    requires k in MergedIds(ms)
    ensures FirstWithId(ms, k).Some?
  {
    var init := ms[..|ms| - 1];
    if k in MergedIds(init) {
      FirstWithIdPresent(init, k);
    }
  }

  /** One row per event ID that occurs, each the first merged row with its ID, IDs
      pairwise distinct; and ascending when the merged rows are sorted by ID (the
      order `groupby` gives). */
  lemma {:induction false} FirstPerEventSpec(ms: seq<Merged>)
    ensures MergedIds(FirstPerEvent(ms)) == MergedIds(ms)
    ensures forall p :: 0 <= p < |FirstPerEvent(ms)| ==>
              FirstWithId(ms, FirstPerEvent(ms)[p].row.eventId) == Some(FirstPerEvent(ms)[p])
    ensures forall p, q :: 0 <= p < q < |FirstPerEvent(ms)| ==>
              FirstPerEvent(ms)[p].row.eventId != FirstPerEvent(ms)[q].row.eventId
    ensures MergedSorted(ms) ==> forall p, q :: 0 <= p < q < |FirstPerEvent(ms)| ==>
              FirstPerEvent(ms)[p].row.eventId < FirstPerEvent(ms)[q].row.eventId
  {
    if ms != [] {
      var init := ms[..|ms| - 1];
      var m := ms[|ms| - 1];
      FirstPerEventSpec(init);
      var prev := FirstPerEvent(init);
      var out := FirstPerEvent(ms);
      if m.row.eventId in MergedIds(prev) {
        assert out == prev;
        forall p | 0 <= p < |out|
          ensures FirstWithId(ms, out[p].row.eventId) == Some(out[p])
        {
          assert FirstWithId(init, prev[p].row.eventId) == Some(prev[p]);
        }
      } else {
        assert out == prev + [m];
        assert out[..|out| - 1] == prev;
        FirstWithIdAbsent(init, m.row.eventId);
        forall p | 0 <= p < |out|
          ensures FirstWithId(ms, out[p].row.eventId) == Some(out[p])
        {
          if p < |prev| {
            assert out[p] == prev[p];
            assert FirstWithId(init, prev[p].row.eventId) == Some(prev[p]);
          }
        }
        forall p | 0 <= p < |prev|
          ensures prev[p].row.eventId != m.row.eventId
        {
          MergedIdsHas(prev, p);
        }
        if MergedSorted(ms) {
          assert MergedSorted(init);
          forall p | 0 <= p < |prev|
            ensures prev[p].row.eventId <= m.row.eventId
          {
            MergedIdsHas(prev, p);
            MergedIdsWitness(init, prev[p].row.eventId);
          }
        }
      }
    }
  }

  lemma {:induction false} MergedIdsHas(ms: seq<Merged>, p: nat)
    requires p < |ms|
    ensures ms[p].row.eventId in MergedIds(ms)
  {
    if p < |ms| - 1 {
      MergedIdsHas(ms[..|ms| - 1], p);
    }
  }

  lemma {:induction false} MergedIdsWitness(ms: seq<Merged>, k: nat)
    requires k in MergedIds(ms)
    ensures exists i :: 0 <= i < |ms| && ms[i].row.eventId == k
  {
    var init := ms[..|ms| - 1];
    if k in MergedIds(init) {
      MergedIdsWitness(init, k);
      var i :| 0 <= i < |init| && init[i].row.eventId == k;
      assert ms[i] == init[i];
    }
  }

  // ---------------------------------------------------------------------
  // The whole analysis
  // ---------------------------------------------------------------------

  /** Why the analysis stops with an exception. */
  datatype AnalysisFailure =
    | NoDataRead              // `data` is unbound when there are no files
    | MergeKeyMissing(key: string)

  /** The columns of `data` after labelling. */
  const DataColumns: set<string> := {"Timestamp", "Precipitation", "IsBreak", "EventID"}

  /** The value columns of a ranked event table. */
  const RankedColumns: set<string> :=
    {"Start", "End", "TotalPrecipitation", "DurationHours", "AverageRate",
     "TotalPrecipRank", "AverageRateRank", "WeightedScore"}

  /** The columns of `all_events` after the loop. The event ID is the index of each
      ranked table; concatenating with `ignore_index=True` replaces it by positions,
      so it is a column only when the index is reset into one first. */
  function AllEventsColumns(files: seq<seq<Reading>>, resetIndex: bool): (c: set<string>)
    ensures "EventID" in c <==> files != [] && resetIndex
    ensures files != [] ==> RankedColumns <= c
  {
    if files == [] then {} else RankedColumns + (if resetIndex then {"EventID"} else {})
  }

  /** `merge(on=key, how='left')`: the key must be a column of both frames. */
  function MergeOn(key: string, left: set<string>, right: set<string>,
                   rs: seq<Row>, events: seq<RankedEvent>): (r: Result<seq<Merged>, AnalysisFailure>)
    ensures r.Err? <==> key !in left || key !in right
    ensures r.Err? ==> r.error == MergeKeyMissing(key)
    ensures r.Ok? ==> forall k :: 0 <= k < |r.value| ==> r.value[k].row in rs && Joined(r.value[k], events)
  {
    if key in left && key in right then
      LeftMergeRows(rs, events);
      LeftMergeJoined(rs, events);
      Ok(LeftMerge(rs, events))
    else Err(MergeKeyMissing(key))
  }

  /** `analyze_precipitation_data` as written: event IDs lost in the concatenation,
      dates compared as strings. */
  function AnalyzeAsWritten(files: seq<seq<Reading>>, dates: seq<string>): Result<seq<Merged>, AnalysisFailure>
  {
    if files == [] then Err(NoDataRead)
    else
      var data := Label(files[|files| - 1]);
      match MergeOn("EventID", DataColumns, AllEventsColumns(files, false), data, AllEvents(files))
      case Err(e) => Err(e)
      case Ok(merged) => Ok(FirstPerEvent(OnDatesAsWritten(merged, dates)))
  }

  /** As written, every run with at least one file stops at the merge. */
  lemma AnalyzeAsWrittenFails(files: seq<seq<Reading>>, dates: seq<string>)
    ensures AnalyzeAsWritten(files, dates) ==
              if files == [] then Err(NoDataRead) else Err(MergeKeyMissing("EventID"))
  {
  }

  /** The analysis with the event IDs kept as a column and the dates given as days. */
  function Analyze(files: seq<seq<Reading>>, days: seq<int>): Result<seq<Merged>, AnalysisFailure>
  {
    if files == [] then Err(NoDataRead)
    else
      var data := Label(files[|files| - 1]);
      match MergeOn("EventID", DataColumns, AllEventsColumns(files, true), data, AllEvents(files))
      case Err(e) => Err(e)
      case Ok(merged) => Ok(FirstPerEvent(OnDates(merged, days)))
  }

  /** Only the last file's readings are examined; each reported row is one of them,
      on a requested day, joined with a collected event of its ID (or none if no file
      produced one); reported IDs are strictly ascending, each reported row is the
      first such row of its event, and every event with a reading on one of the days
      is reported. */
  lemma AnalyzeSpec(files: seq<seq<Reading>>, days: seq<int>)
    ensures Analyze(files, days).Err? <==> files == []
    ensures files != [] ==>
              var data := Label(files[|files| - 1]);
              var merged := LeftMerge(data, AllEvents(files));
              var out := Analyze(files, days).value;
              (forall p :: 0 <= p < |out| ==>
                 out[p].row in data && Day(out[p].row.time) in days &&
                 Joined(out[p], AllEvents(files)) &&
                 FirstWithId(OnDates(merged, days), out[p].row.eventId) == Some(out[p])) &&
              (forall p, q :: 0 <= p < q < |out| ==> out[p].row.eventId < out[q].row.eventId) &&
              MergedIds(out) == MergedIds(OnDates(merged, days))
  {
    if files != [] {
      var data := Label(files[|files| - 1]);
      var events := AllEvents(files);
      assert Analyze(files, days) == Ok(FirstPerEvent(OnDates(LeftMerge(data, events), days)));
      LabelSorted(files[|files| - 1]);
      ReportedRows(data, events, days);
    }
  }

  /** The rows the corrected pipeline reports from sorted data: one per event among the
      rows on the requested days, the first of each, in ascending event order. */
  lemma ReportedRows(data: seq<Row>, events: seq<RankedEvent>, days: seq<int>)
    requires IdsSorted(data)
    ensures var merged := LeftMerge(data, events);
              var out := FirstPerEvent(OnDates(merged, days));
              (forall p :: 0 <= p < |out| ==>
                 out[p].row in data && Day(out[p].row.time) in days &&
                 Joined(out[p], events) &&
                 FirstWithId(OnDates(merged, days), out[p].row.eventId) == Some(out[p])) &&
              (forall p, q :: 0 <= p < q < |out| ==> out[p].row.eventId < out[q].row.eventId) &&
              MergedIds(out) == MergedIds(OnDates(merged, days))
  {
    var merged := LeftMerge(data, events);
    var kept := OnDates(merged, days);
    var out := FirstPerEvent(kept);
    LeftMergeSorted(data, events);
    LeftMergeRows(data, events);
    LeftMergeJoined(data, events);
    OnDatesSorted(merged, days);
    FirstPerEventSpec(kept);
    FirstPerEventFrom(kept);
    forall p | 0 <= p < |out|
      ensures out[p].row in data && Day(out[p].row.time) in days && Joined(out[p], events)
    {
      OnDatesMembers(merged, days, out[p]);
      var k :| 0 <= k < |merged| && merged[k] == out[p];
    }
  }

  /** The date filter keeps the merged rows' order. */
  lemma {:induction false} OnDatesSorted(ms: seq<Merged>, days: seq<int>)
    requires MergedSorted(ms)
    ensures MergedSorted(OnDates(ms, days))
  {
    if ms != [] {
      var init := ms[..|ms| - 1];
      assert MergedSorted(init);
      OnDatesSorted(init, days);
      FilterMembers(init, OnDay(DateValues(days)));
      var a := OnDates(init, days);
      forall k | 0 <= k < |a|
        ensures a[k].row.eventId <= ms[|ms| - 1].row.eventId
      {
        assert a[k] in init;
        var i :| 0 <= i < |init| && init[i] == a[k];
        assert ms[i] == init[i];
      }
    }
  }

  /** Every row of the first-per-event table is one of its input rows. */
  lemma {:induction false} FirstPerEventFrom(ms: seq<Merged>)
    ensures forall p :: 0 <= p < |FirstPerEvent(ms)| ==> FirstPerEvent(ms)[p] in ms
  {
    if ms != [] {
      var init := ms[..|ms| - 1];
      FirstPerEventFrom(init);
      var out := FirstPerEvent(ms);
      forall p | 0 <= p < |out|
        ensures out[p] in ms
      {
        if p < |FirstPerEvent(init)| {
          assert out[p] == FirstPerEvent(init)[p];
          assert out[p] in init;
        }
      }
    }
  }

  /** Every event with a reading of the last file on a requested day is reported. */
  lemma AnalyzeReportsDay(files: seq<seq<Reading>>, days: seq<int>, i: nat)
    requires files != [] && i < |files[|files| - 1]|
    requires Day(files[|files| - 1][i].time) in days
    ensures Analyze(files, days).Ok?
    ensures exists p :: 0 <= p < |Analyze(files, days).value| &&
              Analyze(files, days).value[p].row.eventId == Label(files[|files| - 1])[i].eventId
  {
    var data := Label(files[|files| - 1]);
    var events := AllEvents(files);
    assert Analyze(files, days) == Ok(FirstPerEvent(OnDates(LeftMerge(data, events), days)));
    assert data[i].time == files[|files| - 1][i].time;
    RowReported(data, events, days, i);
  }

  /** A row on a requested day has its event among the reported rows. */
  lemma RowReported(data: seq<Row>, events: seq<RankedEvent>, days: seq<int>, i: nat)
    requires i < |data| && Day(data[i].time) in days
    ensures exists p :: 0 <= p < |FirstPerEvent(OnDates(LeftMerge(data, events), days))| &&
              FirstPerEvent(OnDates(LeftMerge(data, events), days))[p].row.eventId == data[i].eventId
  {
    var merged := LeftMerge(data, events);
    var kept := OnDates(merged, days);
    var out := FirstPerEvent(kept);
    LeftMergeKeepsRows(data, events);
    var k :| 0 <= k < |merged| && merged[k].row == data[i];
    OnDatesMembers(merged, days, merged[k]);
    var q :| 0 <= q < |kept| && kept[q] == merged[k];
    MergedIdsHas(kept, q);
    FirstPerEventSpec(kept);
    MergedIdsWitness(out, data[i].eventId);
  }

  /** The two discrepancies together: one file with one wet reading at the first hour
      of 1 January 1970. As written the run stops at the merge; corrected, that
      reading's event is reported. */
  lemma AnalyzeCounterexample()
    ensures var file := [Reading(0, 2.0)];
              AnalyzeAsWritten([file], ["1970-01-01"]) == Err(MergeKeyMissing("EventID")) &&
              Analyze([file], [0]).Ok? && Analyze([file], [0]).value != []
  {
    var file := [Reading(0, 2.0)];
    AnalyzeAsWrittenFails([file], ["1970-01-01"]);
    AnalyzeReportsDay([file], [0], 0);
  }

  /** The whole script: collect every file's ranked events, then merge them with the
      last file's readings, keep the readings on the requested days and report the
      first one per event. */
  method AnalyzePrecipitationData(files: seq<seq<Reading>>, days: seq<int>)
    returns (r: Result<seq<Merged>, AnalysisFailure>)
    ensures r == Analyze(files, days)
  {
    var allEvents, data := CollectEvents(files);
    if data.None? {
      return Err(NoDataRead);
    }
    var merged := MergeOn("EventID", DataColumns, AllEventsColumns(files, true), data.value, allEvents);
    if merged.Err? {
      return merged;
    }
    var filtered := OnDates(merged.value, days);
    r := Ok(FirstPerEvent(filtered));
  }
}
