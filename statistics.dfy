/**
 * The statistics tab (components/Statistics.tsx): total, average and highest
 * elevation over the completed hikes, the number of completed hikes per month
 * sorted by month, and the completed/wish split of the pie chart.
 */
module Statistics {
  import opened Sequences
  import opened Strings
  import opened Numbers
  import opened Types

  /** `completedHikes.reduce((acc, curr) => acc + curr.elevation, 0)`. */
  function TotalElevation(hikes: seq<HikeRecord>): (total: int)
    ensures hikes == [] ==> total == 0
    ensures (forall h :: h in hikes ==> h.elevation >= 0) ==>
              total >= 0 && forall h :: h in hikes ==> h.elevation <= total
  {
    if hikes == [] then 0
    else
      var init := hikes[..|hikes| - 1];
      assert forall h :: h in hikes ==> h in init || h == hikes[|hikes| - 1];
      assert forall h :: h in init ==> h in hikes;
      TotalElevation(init) + hikes[|hikes| - 1].elevation
  }

  /** The total of two runs of hikes is the sum of their totals. */
  lemma {:induction false} TotalConcat(a: seq<HikeRecord>, b: seq<HikeRecord>)
    ensures TotalElevation(a + b) == TotalElevation(a) + TotalElevation(b)
  {
    if b == [] {
      assert a + b == a;
    } else {
      var last := b[|b| - 1];
      assert (a + b)[..|a + b| - 1] == a + b[..|b| - 1];
      TotalConcat(a, b[..|b| - 1]);
    }
  }

  /** No hike climbs higher than a bound `top` ==> the total is at most `count * top`. */
  lemma {:induction false} TotalAtMost(hikes: seq<HikeRecord>, top: int)
    requires forall h :: h in hikes ==> h.elevation <= top
    ensures TotalElevation(hikes) <= |hikes| * top
  {
    if hikes != [] {
      var init := hikes[..|hikes| - 1];
      assert forall h :: h in init ==> h in hikes;
      TotalAtMost(init, top);
      var last := hikes[|hikes| - 1];
      assert last in hikes;
      assert TotalElevation(hikes) == TotalElevation(init) + last.elevation;
      OneMoreTimes(|init|, top);
    }
  }

  lemma OneMoreTimes(n: int, top: int)
    ensures (n + 1) * top == n * top + top
  {
  }

  /** `Math.max(...hikes.map(h => h.elevation))` for a non-empty list. */
  function HighestElevation(hikes: seq<HikeRecord>): (r: int)
    requires hikes != []
    ensures forall h :: h in hikes ==> h.elevation <= r
    ensures exists h :: h in hikes && h.elevation == r
  {
    if |hikes| == 1 then hikes[0].elevation
    else
      var rest := HighestElevation(hikes[1..]);
      assert forall h :: h in hikes ==> h == hikes[0] || h in hikes[1..];
      if hikes[0].elevation >= rest then hikes[0].elevation else rest
  }

  /** `maxPeak`: the highest completed elevation, 0 when nothing is completed. */
  function MaxPeak(hikes: seq<HikeRecord>): (r: int)
    ensures hikes == [] ==> r == 0
    ensures forall h :: h in hikes ==> h.elevation <= r
    ensures hikes != [] ==> exists h :: h in hikes && h.elevation == r
  {
    if |hikes| > 0 then HighestElevation(hikes) else 0
  }

  /**
   * `avgElevation`: the total divided by the number of hikes, rounded to
   * the nearest integer with halves going up; 0 when there are no hikes.
   */
  function AverageElevation(hikes: seq<HikeRecord>): (r: int)
    ensures hikes == [] ==> r == 0
    ensures hikes != [] ==>
      2 * |hikes| * r - |hikes| <= 2 * TotalElevation(hikes) < 2 * |hikes| * r + |hikes|
  {
    if |hikes| > 0 then RoundedQuotient(TotalElevation(hikes), |hikes|) else 0
  }

  /** The average never exceeds the highest peak. */
  lemma AverageAtMostMax(hikes: seq<HikeRecord>)
    ensures AverageElevation(hikes) <= MaxPeak(hikes)
  {
    if hikes != [] {
      TotalAtMost(hikes, MaxPeak(hikes));
      RoundedAtMost(|hikes|, AverageElevation(hikes), TotalElevation(hikes), MaxPeak(hikes));
    }
  }

  /** A rounded quotient of a total bounded by `n * top` is at most `top`. */
  lemma RoundedAtMost(n: int, r: int, total: int, top: int)
    requires n > 0
    requires 2 * n * r - n <= 2 * total
    requires total <= n * top
    ensures r <= top
  {
    if r > top {
      MultiplyAtLeast(n, r, top + 1);
      assert false;
    }
  }

  lemma MultiplyAtLeast(n: int, a: int, b: int)
    requires n >= 0 && a >= b
    ensures n * a >= n * b
  {
    var d := a - b;
    assert n * a == n * b + n * d;
  }

  /** Wish-list records change nothing in the statistics: they are filtered out first. */
  lemma WishRecordsDoNotCount(before: seq<HikeRecord>, wish: HikeRecord, after: seq<HikeRecord>)
    requires wish.status == Wish
    ensures WithStatus(before + [wish] + after, Completed) == WithStatus(before + after, Completed)
  {
    FilterConcat(before + [wish], after, StatusIs(Completed));
    FilterConcat(before, [wish], StatusIs(Completed));
    FilterConcat(before, after, StatusIs(Completed));
  }

  /** `date.split('-').slice(0, 2).join('-')`: the first two dash-separated fields. */
  function MonthKey(date: string): (key: string)
    ensures |key| <= |date| && key == date[..|key|]
  {
    var fields := Split(date, '-');
    JoinSplit(date, '-');
    JoinPrefix(fields, if |fields| < 2 then |fields| else 2, '-');
    Join(fields[..if |fields| < 2 then |fields| else 2], '-')
  }

  /** For an ISO date "YYYY-MM-DD" the key is "YYYY-MM". */
  lemma MonthKeyOfIsoDate(year: string, month: string, day: string)
    requires '-' !in year && '-' !in month
    ensures MonthKey(year + "-" + month + "-" + day) == year + "-" + month
  {
    var dayFields := Split(day, '-');
    var fields := [year, month] + dayFields;
    JoinSplit(day, '-');
    assert fields[1..] == [month] + dayFields;
    assert fields[1..][1..] == dayFields;
    assert Join(fields[1..], '-') == month + "-" + day;
    assert Join(fields, '-') == year + "-" + (month + "-" + day);
    assert year + "-" + (month + "-" + day) == year + "-" + month + "-" + day;
    SplitJoin(fields, '-');
    assert Split(year + "-" + month + "-" + day, '-') == fields;
    assert fields[..2] == [year, month];
    assert Join([year, month], '-') == year + "-" + month by {
      assert [year, month][1..] == [month];
    }
  }

  /** A date with no dash at all is its own key. */
  lemma MonthKeyWithoutDash(date: string)
    requires '-' !in date
    ensures MonthKey(date) == date
  {
    SplitNoSeparator(date, '-');
  }

  /**
   * `MonthKeyOfIsoDate` for a date given whole rather than as a concatenation;
   * it lets `ChartExample` use literal dates such as "2024-03-15".
   */
  lemma MonthKeyExample(year: string, month: string, day: string, date: string)
    requires '-' !in year && '-' !in month
    requires date == year + "-" + month + "-" + day
    ensures MonthKey(date) == year + "-" + month
  {
    MonthKeyOfIsoDate(year, month, day);
  }

  /** The month keys the given hikes fall into. */
  ghost function MonthKeys(hikes: seq<HikeRecord>): set<string>
  {
    set h | h in hikes :: MonthKey(h.date)
  }

  /** How many of the hikes fall into month `key`. */
  function CountMonth(hikes: seq<HikeRecord>, key: string): (c: nat)
    ensures c > 0 <==> key in MonthKeys(hikes)
  {
    if hikes == [] then 0
    else
      var init, last := hikes[..|hikes| - 1], hikes[|hikes| - 1];
      assert MonthKeys(hikes) == MonthKeys(init) + {MonthKey(last.date)} by {
        assert hikes == init + [last];
        assert forall h :: h in hikes <==> h in init || h == last;
      }
      CountMonth(init, key) + (if MonthKey(last.date) == key then 1 else 0)
  }

  /** One bar of the monthly chart. */
  datatype MonthCount = MonthCount(name: string, count: nat)

  /** Bar names strictly increase from left to right. */
  ghost predicate StrictlyAscending(chart: seq<MonthCount>)
  {
    forall i, j :: 0 <= i < j < |chart| ==> Less(chart[i].name, chart[j].name)
  }

  /** Some bar of the chart is named `key`. */
  ghost predicate HasBar(chart: seq<MonthCount>, key: string)
  {
    exists e :: e in chart && e.name == key
  }

  /**
   * What `chartData` is for the given hikes: one bar per month key that
   * occurs, counting the hikes of that month, in ascending key order.
   */
  ghost predicate IsMonthlyChart(chart: seq<MonthCount>, hikes: seq<HikeRecord>)
  {
    && StrictlyAscending(chart)
    && (forall e :: e in chart ==> e.count == CountMonth(hikes, e.name))
    && (forall key :: key in MonthKeys(hikes) <==> HasBar(chart, key))
  }

  /** Inserting a bar with a new name into an ascending chart keeps it ascending. */
  function InsertByName(chart: seq<MonthCount>, bar: MonthCount): (r: seq<MonthCount>)
    requires StrictlyAscending(chart)
    requires forall e :: e in chart ==> e.name != bar.name
    ensures StrictlyAscending(r)
    ensures |r| == |chart| + 1
    ensures forall e :: e in r <==> e in chart || e == bar
  {
    if chart == [] || Less(bar.name, chart[0].name) then
      assert forall e :: e in chart ==> Less(bar.name, e.name) by {
        forall e | e in chart ensures Less(bar.name, e.name) {
          var j :| 0 <= j < |chart| && chart[j] == e;
          if j > 0 {
            LessTransitive(bar.name, chart[0].name, e.name);
          }
        }
      }
      [bar] + chart
    else
      var rest := InsertByName(chart[1..], bar);
      LessTotal(bar.name, chart[0].name);
      assert forall e :: e in rest ==> Less(chart[0].name, e.name);
      [chart[0]] + rest
  }

  /** Adding a hike adds its month to the keys. */
  lemma MonthKeysSnoc(init: seq<HikeRecord>, last: HikeRecord)
    ensures MonthKeys(init + [last]) == MonthKeys(init) + {MonthKey(last.date)}
  {
    assert forall h :: h in init + [last] <==> h in init || h == last;
  }

  /** One iteration of the counting loop keeps the dictionary equal to the counts so far. */
  lemma CountStep(monthlyData: map<string, nat>, init: seq<HikeRecord>, last: HikeRecord)
    requires monthlyData.Keys == MonthKeys(init)
    requires forall key :: key in monthlyData ==> monthlyData[key] == CountMonth(init, key)
    ensures var month := MonthKey(last.date);
            var next := monthlyData[month := (if month in monthlyData then monthlyData[month] else 0) + 1];
            && next.Keys == MonthKeys(init + [last])
            && forall key :: key in next ==> next[key] == CountMonth(init + [last], key)
  {
    MonthKeysSnoc(init, last);
    var hikes := init + [last];
    assert hikes[..|hikes| - 1] == init && hikes[|hikes| - 1] == last;
  }

  /**
   * The `forEach` loop that counts completed hikes per month in the
   * `monthlyData` dictionary.
   */
  method CountByMonth(hikes: seq<HikeRecord>) returns (monthlyData: map<string, nat>)
    ensures monthlyData.Keys == MonthKeys(hikes)
    ensures forall key :: key in monthlyData ==> monthlyData[key] == CountMonth(hikes, key)
  {
    monthlyData := map[];
    var i := 0;
    while i < |hikes|
      invariant 0 <= i <= |hikes|
      invariant monthlyData.Keys == MonthKeys(hikes[..i])
      invariant forall key :: key in monthlyData ==> monthlyData[key] == CountMonth(hikes[..i], key)
    {
      var month := MonthKey(hikes[i].date);
      assert hikes[..i + 1] == hikes[..i] + [hikes[i]];
      CountStep(monthlyData, hikes[..i], hikes[i]);
      monthlyData := monthlyData[month := (if month in monthlyData then monthlyData[month] else 0) + 1];
      i := i + 1;
    }
    assert hikes[..i] == hikes;
  }

  /**
   * `Object.entries(monthlyData)`, taken here in no particular order, then
   * sorted by month key.
   */
  method SortedEntries(monthlyData: map<string, nat>) returns (chart: seq<MonthCount>)
    ensures StrictlyAscending(chart)
    ensures forall e :: e in chart ==> e.name in monthlyData && e.count == monthlyData[e.name]
    ensures forall key :: key in monthlyData <==> HasBar(chart, key)
  {
    chart := [];
    var pending := monthlyData.Keys;
    while pending != {}
      invariant pending <= monthlyData.Keys
      invariant StrictlyAscending(chart)
      invariant forall e :: e in chart ==> e.name in monthlyData && e.count == monthlyData[e.name]
      invariant forall key :: HasBar(chart, key) <==> key in monthlyData && key !in pending
      decreases pending
    {
      var key :| key in pending;
      chart := InsertByName(chart, MonthCount(key, monthlyData[key]));
      pending := pending - {key};
    }
  }

  /** The monthly bar chart of the given hikes. */
  method MonthlyChart(hikes: seq<HikeRecord>) returns (chart: seq<MonthCount>)
    ensures IsMonthlyChart(chart, hikes)
  {
    var monthlyData := CountByMonth(hikes);
    chart := SortedEntries(monthlyData);
  }

  function SumCounts(chart: seq<MonthCount>): int
  {
    if chart == [] then 0 else chart[0].count + SumCounts(chart[1..])
  }

  /** The bar heights each recounted over the hikes. */
  function Recounted(chart: seq<MonthCount>, hikes: seq<HikeRecord>): int
  {
    if chart == [] then 0 else CountMonth(hikes, chart[0].name) + Recounted(chart[1..], hikes)
  }

  /** How many bars carry the name `key`. */
  function Bars(chart: seq<MonthCount>, key: string): nat
  {
    if chart == [] then 0 else (if chart[0].name == key then 1 else 0) + Bars(chart[1..], key)
  }

  lemma {:induction false} RecountedEmpty(chart: seq<MonthCount>)
    ensures Recounted(chart, []) == 0
  {
    if chart != [] {
      RecountedEmpty(chart[1..]);
    }
  }

  lemma {:induction false} RecountedStep(chart: seq<MonthCount>, hikes: seq<HikeRecord>, h: HikeRecord)
    ensures Recounted(chart, hikes + [h]) == Recounted(chart, hikes) + Bars(chart, MonthKey(h.date))
  {
    if chart != [] {
      assert (hikes + [h])[..|hikes + [h]| - 1] == hikes;
      RecountedStep(chart[1..], hikes, h);
    }
  }

  lemma {:induction false} BarsOfAscending(chart: seq<MonthCount>, key: string)
    requires StrictlyAscending(chart)
    requires HasBar(chart, key)
    ensures Bars(chart, key) == 1
  {
    if chart[0].name == key {
      assert !HasBar(chart[1..], key) by {
        forall e | e in chart[1..] ensures e.name != key {
          LessIrreflexive(key);
        }
      }
      BarsAbsent(chart[1..], key);
    } else {
      var e :| e in chart && e.name == key;
      assert e in chart[1..];
      BarsOfAscending(chart[1..], key);
    }
  }

  lemma {:induction false} BarsAbsent(chart: seq<MonthCount>, key: string)
    requires !HasBar(chart, key)
    ensures Bars(chart, key) == 0
  {
    if chart != [] {
      assert chart[0] in chart;
      assert !HasBar(chart[1..], key) by {
        forall e | e in chart[1..] ensures e.name != key {
          assert e in chart;
        }
      }
      BarsAbsent(chart[1..], key);
    }
  }

  lemma {:induction false} RecountedCoversAll(chart: seq<MonthCount>, hikes: seq<HikeRecord>)
    requires StrictlyAscending(chart)
    requires forall h :: h in hikes ==> HasBar(chart, MonthKey(h.date))
    ensures Recounted(chart, hikes) == |hikes|
  {
    if hikes == [] {
      RecountedEmpty(chart);
    } else {
      var init, last := hikes[..|hikes| - 1], hikes[|hikes| - 1];
      assert hikes == init + [last];
      RecountedCoversAll(chart, init);
      RecountedStep(chart, init, last);
      BarsOfAscending(chart, MonthKey(last.date));
    }
  }

  lemma {:induction false} SumCountsRecounted(chart: seq<MonthCount>, hikes: seq<HikeRecord>)
    requires forall e :: e in chart ==> e.count == CountMonth(hikes, e.name)
    ensures SumCounts(chart) == Recounted(chart, hikes)
  {
    if chart != [] {
      assert chart[0] in chart;
      SumCountsRecounted(chart[1..], hikes);
    }
  }

  /** Every bar is at least one hike high and the bars add up to the number of hikes. */
  lemma ChartTotals(chart: seq<MonthCount>, hikes: seq<HikeRecord>)
    requires IsMonthlyChart(chart, hikes)
    ensures forall e :: e in chart ==> e.count > 0
    ensures SumCounts(chart) == |hikes|
  {
    forall e | e in chart ensures e.count > 0 {
      assert HasBar(chart, e.name);
    }
    forall h | h in hikes ensures HasBar(chart, MonthKey(h.date)) {
      assert MonthKey(h.date) in MonthKeys(hikes);
    }
    SumCountsRecounted(chart, hikes);
    RecountedCoversAll(chart, hikes);
  }

  /**
   * The chart does not depend on the order `Object.entries` lists the
   * months in: any two charts for the same hikes are equal.
   */
  lemma {:induction false} ChartIsDetermined(a: seq<MonthCount>, b: seq<MonthCount>, hikes: seq<HikeRecord>)
    requires StrictlyAscending(a) && StrictlyAscending(b)
    requires forall e :: e in a ==> e.count == CountMonth(hikes, e.name)
    requires forall e :: e in b ==> e.count == CountMonth(hikes, e.name)
    requires forall key :: HasBar(a, key) <==> HasBar(b, key)
    ensures a == b
  {
    if a == [] {
      if b != [] {
        assert HasBar(b, b[0].name);
      }
    } else {
      assert HasBar(a, a[0].name);
      assert b != [];
      assert HasBar(b, b[0].name);
      if a[0].name != b[0].name {
        var j :| 0 <= j < |b| && b[j].name == a[0].name;
        var k :| 0 <= k < |a| && a[k].name == b[0].name;
        assert Less(b[0].name, a[0].name) && Less(a[0].name, b[0].name);
        LessAsymmetric(b[0].name, a[0].name);
      }
      assert a[0] == b[0];
      TailBars(a, b);
      TailBars(b, a);
      ChartIsDetermined(a[1..], b[1..], hikes);
      assert a == [a[0]] + a[1..] && b == [b[0]] + b[1..];
    }
  }

  /** Two ascending charts with the same bars and the same first bar have the same bars after it. */
  lemma TailBars(a: seq<MonthCount>, b: seq<MonthCount>)
    requires StrictlyAscending(a) && StrictlyAscending(b)
    requires a != [] && b != [] && a[0].name == b[0].name
    requires forall key :: HasBar(a, key) <==> HasBar(b, key)
    ensures forall key :: HasBar(a[1..], key) ==> HasBar(b[1..], key)
  {
    forall key | HasBar(a[1..], key) ensures HasBar(b[1..], key) {
      var e :| e in a[1..] && e.name == key;
      var i :| 1 <= i < |a| && a[i] == e;
      assert Less(a[0].name, key);
      LessIrreflexive(key);
      assert e in a && HasBar(a, key);
      var f :| f in b && f.name == key;
      assert f in b[1..];
    }
  }

  /**
   * Hikes on 2024-03-15, 2024-03-20 and 2024-05-10 give two bars, March with
   * two hikes before May with one, whatever order the months were met in.
   */
  lemma ChartExample(hikes: seq<HikeRecord>, chart: seq<MonthCount>)
    requires |hikes| == 3
    requires hikes[0].date == "2024-03-15" && hikes[1].date == "2024-03-20" && hikes[2].date == "2024-05-10"
    requires IsMonthlyChart(chart, hikes)
    ensures chart == [MonthCount("2024-03", 2), MonthCount("2024-05", 1)]
  {
    MonthKeyExample("2024", "03", "15", hikes[0].date);
    MonthKeyExample("2024", "03", "20", hikes[1].date);
    MonthKeyExample("2024", "05", "10", hikes[2].date);
    MarchBeforeMay();
    TwoMonthChart(hikes, chart, "2024-03", "2024-05");
  }

  lemma MarchBeforeMay()
    ensures Less("2024-03", "2024-05")
  {
    var march, may := "2024-03", "2024-05";
    assert march[6] < may[6];
    assert Less(march[6..], may[6..]);
    assert Less(march[5..], may[5..]);
    assert Less(march[4..], may[4..]);
    assert Less(march[3..], may[3..]);
    assert Less(march[2..], may[2..]);
    assert Less(march[1..], may[1..]);
  }

  /** Two hikes in an earlier month and one in a later month make two bars. */
  lemma TwoMonthChart(hikes: seq<HikeRecord>, chart: seq<MonthCount>, early: string, late: string)
    requires |hikes| == 3 && Less(early, late)
    requires MonthKey(hikes[0].date) == early && MonthKey(hikes[1].date) == early
    requires MonthKey(hikes[2].date) == late
    requires IsMonthlyChart(chart, hikes)
    ensures chart == [MonthCount(early, 2), MonthCount(late, 1)]
  {
    LessIrreflexive(early);
    var expected := [MonthCount(early, 2), MonthCount(late, 1)];
    ExampleCounts(hikes, early, late);
    ExampleKeys(hikes, early, late);
    forall key ensures key in MonthKeys(hikes) <==> HasBar(expected, key) {
      if key == early {
        assert expected[0] in expected;
      } else if key == late {
        assert expected[1] in expected;
      }
    }
    ChartIsDetermined(chart, expected, hikes);
  }

  lemma ExampleKeys(hikes: seq<HikeRecord>, early: string, late: string)
    requires |hikes| == 3
    requires MonthKey(hikes[0].date) == early && MonthKey(hikes[1].date) == early
    requires MonthKey(hikes[2].date) == late
    ensures MonthKeys(hikes) == {early, late}
  {
    assert hikes == [hikes[0], hikes[1], hikes[2]];
  }

  lemma ExampleCounts(hikes: seq<HikeRecord>, early: string, late: string)
    requires |hikes| == 3 && early != late
    requires MonthKey(hikes[0].date) == early && MonthKey(hikes[1].date) == early
    requires MonthKey(hikes[2].date) == late
    ensures CountMonth(hikes, early) == 2 && CountMonth(hikes, late) == 1
  {
    var one, two := hikes[..1], hikes[..2];
    assert two[..1] == one && one[..0] == [];
    assert hikes[..2] == two;
    assert CountMonth(one, early) == 1 && CountMonth(one, late) == 0;
    assert CountMonth(two, early) == 2 && CountMonth(two, late) == 0;
  }

  /** What the four statistic cards and the bar chart show. */
  datatype Summary = Summary(totalElevation: int, avgElevation: int, maxPeak: int, chartData: seq<MonthCount>)

  /** `stats`: everything computed over the completed hikes only. */
  method ComputeStats(records: seq<HikeRecord>) returns (stats: Summary)
    ensures var completed := WithStatus(records, Completed);
      && stats.totalElevation == TotalElevation(completed)
      && stats.avgElevation == AverageElevation(completed)
      && stats.maxPeak == MaxPeak(completed)
      && IsMonthlyChart(stats.chartData, completed)
  {
    var completed := WithStatus(records, Completed);
    var chartData := MonthlyChart(completed);
    stats := Summary(TotalElevation(completed), AverageElevation(completed), MaxPeak(completed), chartData);
  }

  /** One slice of the pie chart. */
  datatype PieSlice = PieSlice(name: string, value: int, color: string)

  /** `pieData`: completed hikes, then all the others; together, every record. */
  function PieData(records: seq<HikeRecord>): (r: seq<PieSlice>)
    ensures |r| == 2
    ensures r[0].value == |WithStatus(records, Completed)|
    ensures r[1].value == |WithStatus(records, Wish)|
    ensures r[0].value + r[1].value == |records|
  {
    var completed := |WithStatus(records, Completed)|;
    StatusPartition(records);
    [PieSlice("다녀옴", completed, "#10b981"), PieSlice("위시리스트", |records| - completed, "#fb923c")]
  }

  /** A wish-list record leaves the completed slice as it was and grows the other slice by one. */
  lemma WishGrowsPie(before: seq<HikeRecord>, wish: HikeRecord, after: seq<HikeRecord>)
    requires wish.status == Wish
    ensures PieData(before + [wish] + after)[0] == PieData(before + after)[0]
    ensures PieData(before + [wish] + after)[1].value == PieData(before + after)[1].value + 1
  {
    WishRecordsDoNotCount(before, wish, after);
  }
}
