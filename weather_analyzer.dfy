/** `WeatherAnalyzer`: one analysis run. The request's names are looked up
    in the helper tables, the station names and the weather files are
    fetched through the loader, the rows are narrowed to the requested
    weekday, stations and metric, each station's values are reduced to one
    number, the station ids are replaced by station names, and the result is
    written to a CSV file or drawn as a bar chart. Whatever happens inside
    the guarded block, the loader's session is closed afterwards; only an
    unknown calculation name escapes before that block is entered. */
module Analyzer {
  import opened Wrappers
  import opened Calendar
  import opened DateFormat
  import opened HelperTypes
  import opened InputValidator
  import opened Statistics
  import opened Dataset
  import opened DataLoader

  /** `WeatherAnalyzer.BASE_URL`. */
  const BaseUrl: string := "https://storage.googleapis.com/spotnix-app-resources/weather_data"

  // ---------------------------------------------------------------------
  // Looking up the request's names

  /** `METRICS.get(name)`: the observation code, or nothing for an unknown name. */
  function MetricCode(name: string): (r: Option<string>)
    ensures r.Some? <==> name in Metrics
    ensures r.Some? ==> r.value == Metrics[name]
  {
    if name in Metrics then Some(Metrics[name]) else None
  }

  /** `WEEKDAYS.get(name)`: the weekday number to keep, or nothing, both for
      "none" and for a name that is not in the table. */
  function WeekdayFilter(name: string): (r: Option<int>)
    ensures name in Weekdays ==> r == Weekdays[name]
    ensures name !in Weekdays ==> r == None
  {
    if name in Weekdays then Weekdays[name] else None
  }

  // ---------------------------------------------------------------------
  // The dates to fetch

  /** `d` is a real calendar day falling on weekday `w`. */
  predicate OnWeekday(d: Date, w: int) {
    ValidDate(d) && Weekday(d) == w
  }

  /** Masking keeps the elements in their order, so dates in calendar order
      stay in calendar order. */
  lemma {:induction false} FilterKeepsDateOrder(s: seq<Date>, p: Date -> bool)
    requires forall i, j :: 0 <= i < j < |s| ==> Before(s[i], s[j])
    ensures forall i, j :: 0 <= i < j < |Filter(s, p)| ==> Before(Filter(s, p)[i], Filter(s, p)[j])
  {
    if s != [] {
      var rest := Filter(s[1..], p);
      FilterKeepsDateOrder(s[1..], p);
      forall k | 0 <= k < |rest| ensures Before(s[0], rest[k]) {
        assert rest[k] in s[1..];
        var m :| 0 <= m < |s[1..]| && s[1..][m] == rest[k];
        assert s[m + 1] == rest[k];
      }
    }
  }

  /** The dates `analyze_weather` asks the loader for: `pd.date_range(start,
      end)`, masked by `date_range.weekday == filter` when a weekday filter
      is set. */
  function RequestedDates(start: Date, end: Date, filter: Option<int>): (r: seq<Date>)
    requires ValidDate(start) && ValidDate(end)
    ensures forall i :: 0 <= i < |r| ==> ValidDate(r[i])
  {
    var range := DateRange(start, end);
    if filter.None? then range
    else
      var w := filter.value;
      var r := Filter(range, d => OnWeekday(d, w));
      assert forall i :: 0 <= i < |r| ==> r[i] in r;
      r
  }

  /** The requested dates are exactly the calendar days from `start` to
      `end` on the requested weekday, in calendar order. */
  lemma RequestedDatesExact(start: Date, end: Date, filter: Option<int>, d: Date)
    requires ValidDate(start) && ValidDate(end)
    ensures d in RequestedDates(start, end, filter) <==>
      ValidDate(d) && !Before(d, start) && !Before(end, d) && (filter.Some? ==> Weekday(d) == filter.value)
    ensures var r := RequestedDates(start, end, filter);
            forall i, j :: 0 <= i < j < |r| ==> Before(r[i], r[j])
  {
    var range := DateRange(start, end);
    DateRangeExact(start, end, start);
    if ValidDate(d) {
      DateRangeExact(start, end, d);
    }
    if filter.Some? {
      var w := filter.value;
      FilterKeepsDateOrder(range, d => OnWeekday(d, w));
    }
  }

  // ---------------------------------------------------------------------
  // Narrowing the weather rows

  /** `weather_data[weather_data['station_id'].isin(station_ids)]` when
      `station_ids` is a non-empty list; an absent or empty list keeps every
      row. */
  function KeepStations(d: seq<Record>, stations: Option<seq<string>>): (r: seq<Record>)
    ensures stations.None? || stations.value == [] ==> r == d
    ensures stations.Some? && stations.value != [] ==>
      forall x :: x in r <==> x in d && x.stationId in stations.value
    ensures Stations(r) <= Stations(d)
  {
    if stations.None? || stations.value == [] then d
    else
      var ids := stations.value;
      var r := Filter(d, (x: Record) => x.stationId in ids);
      forall s | s in Stations(r) ensures s in Stations(d) {
        StationsOccur(r, s);
        var i :| 0 <= i < |r| && r[i].stationId == s;
        assert r[i] in r;
        var j :| 0 <= j < |d| && d[j] == r[i];
        StationsOccur(d, s);
      }
      r
  }

  /** `weather_data[weather_data['metric'] == metric]`: the rows of the
      requested metric; comparing with a missing metric keeps no row. */
  function KeepMetric(d: seq<Record>, metric: Option<string>): (r: seq<Record>)
    ensures forall x :: x in r <==> x in d && Some(x.metric) == metric
    ensures metric.None? ==> r == []
  {
    var r := Filter(d, (x: Record) => Some(x.metric) == metric);
    assert r != [] ==> r[0] in r;
    r
  }

  /** The station mask keeps each matching row as many times as it occurs
      in the table and drops every other row. */
  lemma StationMaskCounts(d: seq<Record>, stations: Option<seq<string>>)
    ensures stations.None? || stations.value == [] ==> multiset(KeepStations(d, stations)) == multiset(d)
    ensures stations.Some? && stations.value != [] ==>
      forall x :: multiset(KeepStations(d, stations))[x]
                  == if x.stationId in stations.value then multiset(d)[x] else 0
  {
    if stations.Some? && stations.value != [] {
      var ids := stations.value;
      FilterCounts(d, (x: Record) => x.stationId in ids);
    }
  }

  /** The metric mask keeps each row of the requested metric as many times
      as it occurs in the table and drops every other row. */
  lemma MetricMaskCounts(d: seq<Record>, metric: Option<string>)
    ensures forall x :: multiset(KeepMetric(d, metric))[x]
                        == if Some(x.metric) == metric then multiset(d)[x] else 0
  {
    FilterCounts(d, (x: Record) => Some(x.metric) == metric);
  }

  // ---------------------------------------------------------------------
  // `calculate`

  /** One result row: a station id and its value. */
  datatype Row = Row(station: string, value: real)

  /** The temperature code is stored in tenths of a degree, so its values are
      divided by ten before any reduction; every other metric is left as read. */
  function Reading(metric: Option<string>, raw: real): real {
    if metric == Some(TemperatureCode) then raw / 10.0 else raw
  }

  /** The table after the rescaling step of `calculate`. */
  function Rescale(d: seq<Record>, metric: Option<string>): (r: seq<Record>)
    ensures |r| == |d|
    ensures forall i :: 0 <= i < |d| ==>
      r[i].stationId == d[i].stationId && r[i].metric == d[i].metric
      && r[i].value == Reading(metric, d[i].value)
  {
    seq(|d|, i requires 0 <= i < |d| => d[i].(value := Reading(metric, d[i].value)))
  }

  /** Rescaling keeps the station ids and their group order. */
  lemma {:induction false} RescaleKeepsStations(d: seq<Record>, metric: Option<string>)
    ensures Stations(Rescale(d, metric)) == Stations(d)
    ensures GroupKeys(Rescale(d, metric)) == GroupKeys(d)
  {
    if d != [] {
      assert Rescale(d, metric)[1..] == Rescale(d[1..], metric);
      RescaleKeepsStations(d[1..], metric);
    }
  }

  /** Rescaling divides each value of a station's group by ten for
      temperature and leaves the group as read otherwise. */
  lemma {:induction false} RescaleKeepsGroups(d: seq<Record>, metric: Option<string>, s: string)
    ensures StationValues(Rescale(d, metric), s)
            == if metric == Some(TemperatureCode) then Scaled(StationValues(d, s), 10.0)
               else StationValues(d, s)
  {
    if d != [] {
      assert Rescale(d, metric)[1..] == Rescale(d[1..], metric);
      RescaleKeepsGroups(d[1..], metric, s);
      if metric == Some(TemperatureCode) && d[0].stationId == s {
        var v := StationValues(d[1..], s);
        assert Scaled([d[0].value] + v, 10.0) == [d[0].value / 10.0] + Scaled(v, 10.0);
      }
    }
  }

  /** The reduction `calculate` applies to the group of station `s` in the
      rescaled table `data`. */
  function GroupStatistic(data: seq<Record>, s: string, kind: CalculationType): real
    requires s in Stations(data)
  {
    StationValuesNonEmpty(data, s);
    var v := StationValues(data, s);
    match kind
    case Average => Mean(v)
    case Min => Minimum(v)
    case Median => Statistics.Median(v)
    case DiffAvg => Mean(v) - Mean(Values(data))
  }

  /** The station ids of a result, in row order. */
  function RowStations(rows: seq<Row>): (r: seq<string>)
    ensures |r| == |rows| && forall i :: 0 <= i < |rows| ==> r[i] == rows[i].station
  {
    seq(|rows|, i requires 0 <= i < |rows| => rows[i].station)
  }

  /** `calculate`: one row per station of the table, in ascending id order
      (the order of `groupby`), holding that station's reduced value. */
  function Calculate(d: seq<Record>, metric: Option<string>, kind: CalculationType): (r: seq<Row>)
    ensures StrictlyAscending(RowStations(r))
    ensures forall s :: s in RowStations(r) <==> s in Stations(d)
    ensures forall i :: 0 <= i < |r| ==>
      r[i].station in Stations(Rescale(d, metric))
      && r[i].value == GroupStatistic(Rescale(d, metric), r[i].station, kind)
  {
    var data := Rescale(d, metric);
    var keys := GroupKeys(data);
    RescaleKeepsStations(d, metric);
    var r := seq(|keys|, i requires 0 <= i < |keys| => Row(keys[i], GroupStatistic(data, keys[i], kind)));
    assert RowStations(r) == keys;
    r
  }

  /** Every station of the table has a row in the result. */
  lemma RowOf(d: seq<Record>, metric: Option<string>, kind: CalculationType, s: string)
    returns (i: int)
    requires s in Stations(d)
    ensures 0 <= i < |Calculate(d, metric, kind)| && Calculate(d, metric, kind)[i].station == s
  {
    var r := Calculate(d, metric, kind);
    assert s in RowStations(r);
    i :| 0 <= i < |RowStations(r)| && RowStations(r)[i] == s;
  }

  /** AVERAGE is the mean of the station's values as read, divided by ten
      for temperature. */
  lemma CalculateAverage(d: seq<Record>, metric: Option<string>, i: int)
    requires 0 <= i < |Calculate(d, metric, Average)|
    ensures var row := Calculate(d, metric, Average)[i];
            var v := StationValues(d, row.station);
            |v| > 0 && row.value == Reading(metric, Mean(v))
  {
    var row := Calculate(d, metric, Average)[i];
    RescaleKeepsStations(d, metric);
    StationValuesNonEmpty(d, row.station);
    RescaledMean(d, metric, row.station);
  }

  /** MIN is one of the station's values as read (rescaled), and no value of
      the station is below it. */
  lemma CalculateMin(d: seq<Record>, metric: Option<string>, i: int)
    requires 0 <= i < |Calculate(d, metric, Min)|
    ensures var row := Calculate(d, metric, Min)[i];
            var v := StationValues(d, row.station);
            (exists k :: 0 <= k < |v| && row.value == Reading(metric, v[k]))
            && forall k :: 0 <= k < |v| ==> row.value <= Reading(metric, v[k])
  {
    var row := Calculate(d, metric, Min)[i];
    RescaleKeepsGroups(d, metric, row.station);
    var v := StationValues(d, row.station);
    var w := StationValues(Rescale(d, metric), row.station);
    assert |w| == |v| && forall k :: 0 <= k < |v| ==> w[k] == Reading(metric, v[k]);
    var m :| 0 <= m < |w| && w[m] == row.value;
  }

  /** MIN never exceeds AVERAGE or MEDIAN for the same station. */
  lemma MinBelowAverageAndMedian(d: seq<Record>, metric: Option<string>, i: int)
    requires 0 <= i < |Calculate(d, metric, Min)|
    ensures |Calculate(d, metric, Average)| == |Calculate(d, metric, Median)| == |Calculate(d, metric, Min)|
    ensures Calculate(d, metric, Average)[i].station == Calculate(d, metric, Min)[i].station
    ensures Calculate(d, metric, Median)[i].station == Calculate(d, metric, Min)[i].station
    ensures Calculate(d, metric, Min)[i].value <= Calculate(d, metric, Average)[i].value
    ensures Calculate(d, metric, Min)[i].value <= Calculate(d, metric, Median)[i].value
  {
    var s := Calculate(d, metric, Min)[i].station;
    var data := Rescale(d, metric);
    StationValuesNonEmpty(data, s);
    MinimumAtMostMean(StationValues(data, s));
    MedianWithinValues(StationValues(data, s));
  }

  /** A station whose records all hold `v` gets `v` (rescaled) from AVERAGE,
      MIN and MEDIAN alike. */
  lemma ConstantStation(d: seq<Record>, metric: Option<string>, kind: CalculationType, i: int, v: real)
    requires kind != DiffAvg
    requires 0 <= i < |Calculate(d, metric, kind)|
    requires forall j :: 0 <= j < |d| && d[j].stationId == Calculate(d, metric, kind)[i].station ==> d[j].value == v
    ensures Calculate(d, metric, kind)[i].value == Reading(metric, v)
  {
    var s := Calculate(d, metric, kind)[i].station;
    var data := Rescale(d, metric);
    StationValuesOfConstant(data, s, Reading(metric, v));
    var w := StationValues(data, s);
    StationValuesNonEmpty(data, s);
    match kind
    case Average => MeanOfConstant(w, Reading(metric, v));
    case Min => assert Minimum(w) in w;
    case Median => MedianOfConstant(w, Reading(metric, v));
  }

  /** When every station's values average to the same `c`, the overall mean
      is `c` as well, so DIFF_AVG is zero for every station. */
  lemma DiffAvgZeroWhenMeansAgree(d: seq<Record>, metric: Option<string>, c: real)
    requires forall s :: s in Stations(d) ==> |StationValues(d, s)| > 0 && Mean(StationValues(d, s)) == c
    ensures forall i :: 0 <= i < |Calculate(d, metric, DiffAvg)| ==> Calculate(d, metric, DiffAvg)[i].value == 0.0
  {
    var data := Rescale(d, metric);
    var c' := Reading(metric, c);
    RescaleKeepsStations(d, metric);
    forall t | t in Stations(data) ensures |StationValues(data, t)| > 0 && Mean(StationValues(data, t)) == c' {
      RescaledMean(d, metric, t);
    }
    if d != [] {
      assert d[0].stationId in Stations(data);
      OverallMeanOfUniformGroups(data, c');
    }
  }

  /** Rescaling divides a station's mean by ten for temperature. */
  lemma RescaledMean(d: seq<Record>, metric: Option<string>, t: string)
    requires |StationValues(d, t)| > 0
    ensures |StationValues(Rescale(d, metric), t)| > 0
    ensures Mean(StationValues(Rescale(d, metric), t)) == Reading(metric, Mean(StationValues(d, t)))
  {
    RescaleKeepsGroups(d, metric, t);
    if metric == Some(TemperatureCode) {
      MeanScaled(StationValues(d, t), 10.0);
    }
  }

  /** Groups that all average to `c` make a table that averages to `c`. */
  lemma OverallMeanOfUniformGroups(data: seq<Record>, c: real)
    requires data != []
    requires forall t :: t in Stations(data) ==> |StationValues(data, t)| > 0 && Mean(StationValues(data, t)) == c
    ensures Mean(Values(data)) == c
  {
    forall t | t in Stations(data) ensures GroupAverages(data, t, c) {
      MeanIsExactlyWhenNoDeviation(StationValues(data, t), c);
    }
    UniformGroupMeans(data, c);
    MeanIsExactlyWhenNoDeviation(Values(data), c);
  }

  /** A raw temperature of 250 tenths reduces to 25.0 degrees, while a
      precipitation of 250 stays 250.0. */
  lemma TemperatureInTenths()
    ensures Calculate([Record("USW00094846", "TAVG", 250.0)], Some("TAVG"), Min) == [Row("USW00094846", 25.0)]
    ensures Calculate([Record("USW00094846", "PRCP", 250.0)], Some("PRCP"), Min) == [Row("USW00094846", 250.0)]
  {
    var t := [Record("USW00094846", "TAVG", 250.0)];
    assert Rescale(t, Some("TAVG")) == [Record("USW00094846", "TAVG", 25.0)];
    var p := [Record("USW00094846", "PRCP", 250.0)];
    assert Rescale(p, Some("PRCP")) == p;
  }

  // ---------------------------------------------------------------------
  // Replacing station ids by names

  /** A result row after `result.index.map(station_metadata)`: the station's
      name, or a missing label for an id the map does not hold. */
  datatype LabelledRow = LabelledRow(name: Option<string>, value: real)

  /** `result.index = result.index.map(station_metadata)`: each row keeps its
      place and value; its label is the id's name, or missing. */
  function Relabel(rows: seq<Row>, metadata: map<string, string>): (r: seq<LabelledRow>)
    ensures |r| == |rows|
    ensures forall i :: 0 <= i < |rows| ==> r[i].value == rows[i].value
    ensures forall i :: 0 <= i < |rows| ==> (r[i].name.Some? <==> rows[i].station in metadata)
    ensures forall i :: 0 <= i < |rows| && rows[i].station in metadata ==>
      r[i].name.value == metadata[rows[i].station]
  {
    seq(|rows|, i requires 0 <= i < |rows| =>
      LabelledRow(if rows[i].station in metadata then Some(metadata[rows[i].station]) else None, rows[i].value))
  }

  /** With the map read from the station file, a row is labelled with the
      name on the last line of the file that carries its id, and is left
      unlabelled exactly when no line carries it. */
  lemma RelabelFromStationFile(rows: seq<Row>, stationRows: seq<StationRow>, i: int)
    requires 0 <= i < |rows|
    ensures var r := Relabel(rows, StationMap(stationRows));
            (r[i].name.None? <==> forall k :: 0 <= k < |stationRows| ==> stationRows[k].id != rows[i].station)
            && forall k :: 0 <= k < |stationRows| && stationRows[k].id == rows[i].station
                 && (forall j :: k < j < |stationRows| ==> stationRows[j].id != rows[i].station)
                 ==> r[i].name == Some(stationRows[k].name)
  {
    StationMapLastWins(stationRows);
  }

  // ---------------------------------------------------------------------
  // `handle_output`

  /** The name `handle_output` writes to when no file is given. */
  function DefaultCsvName(metricName: string, kind: CalculationType): string {
    metricName + "_" + kind.Value() + ".csv"
  }

  /** The default name starts with the metric name and an underscore, ends in
      ".csv", and tells the four calculations apart. */
  lemma DefaultCsvNameParts(metricName: string, a: CalculationType, b: CalculationType)
    ensures var n := DefaultCsvName(metricName, a);
            |n| > |metricName| + 5 && n[..|metricName| + 1] == metricName + "_" && n[|n| - 4..] == ".csv"
    ensures a != b ==> DefaultCsvName(metricName, a) != DefaultCsvName(metricName, b)
  {
    var n := DefaultCsvName(metricName, a);
    assert n[..|metricName| + 1] == metricName + "_";
    if a != b {
      assert |a.Value()| != |b.Value()|;
      assert |DefaultCsvName(metricName, a)| != |DefaultCsvName(metricName, b)|;
    }
  }

  /** The file `handle_output` writes: the given file unless it is absent or
      empty, in which case the default name. */
  function CsvPath(outputFile: Option<string>, metricName: string, kind: CalculationType): (path: string)
    ensures outputFile.Some? && outputFile.value != "" ==> path == outputFile.value
    ensures outputFile.None? || outputFile.value == "" ==> path == DefaultCsvName(metricName, kind)
  {
    if outputFile.None? || outputFile.value == "" then DefaultCsvName(metricName, kind) else outputFile.value
  }

  predicate IsUpper(c: char) { 'A' <= c <= 'Z' }
  predicate IsLower(c: char) { 'a' <= c <= 'z' }

  function ToUpper(c: char): char {
    if IsLower(c) then (c as int - 32) as char else c
  }

  function ToLower(c: char): char {
    if IsUpper(c) then (c as int + 32) as char else c
  }

  predicate IsLetter(c: char) { IsUpper(c) || IsLower(c) }

  /** `str.title()` over ASCII: a letter is upper-cased when it does not
      follow a letter, and lower-cased when it does. */
  function Title(s: string): (t: string)
    ensures |t| == |s|
  {
    TitleAfter(s, false)
  }

  function TitleAfter(s: string, afterLetter: bool): (t: string)
    ensures |t| == |s|
  {
    if s == [] then []
    else
      var c := s[0];
      [if afterLetter then ToLower(c) else ToUpper(c)] + TitleAfter(s[1..], IsUpper(c) || IsLower(c))
  }

  /** Each character of the title-cased string depends only on itself and
      the character before it: lower case after a letter, upper case
      anywhere else. */
  lemma TitleByPosition(s: string)
    ensures forall i :: 0 <= i < |s| ==>
      Title(s)[i] == if i > 0 && IsLetter(s[i - 1]) then ToLower(s[i]) else ToUpper(s[i])
  {
    forall i | 0 <= i < |s|
      ensures Title(s)[i] == if i > 0 && IsLetter(s[i - 1]) then ToLower(s[i]) else ToUpper(s[i])
    {
      TitleAfterAt(s, false, i);
    }
  }

  lemma {:induction false} TitleAfterAt(s: string, afterLetter: bool, i: int)
    requires 0 <= i < |s|
    ensures TitleAfter(s, afterLetter)[i]
            == if (if i == 0 then afterLetter else IsLetter(s[i - 1])) then ToLower(s[i]) else ToUpper(s[i])
  {
    if i > 0 {
      TitleAfterAt(s[1..], IsLetter(s[0]), i - 1);
      assert s[1..][i - 1] == s[i];
      if i > 1 {
        assert s[1..][i - 2] == s[i - 1];
      }
    }
  }

  /** Lower-case letters after a letter are left as they are. */
  lemma {:induction false} LowerAfterLetter(s: string)
    requires forall i :: 0 <= i < |s| ==> IsLower(s[i])
    ensures TitleAfter(s, true) == s
  {
    if s != [] {
      LowerAfterLetter(s[1..]);
    }
  }

  /** A lower-case word not after a letter gets a capital initial. */
  lemma CapitalInitial(s: string)
    requires |s| > 0 && forall i :: 0 <= i < |s| ==> IsLower(s[i])
    ensures TitleAfter(s, false) == [ToUpper(s[0])] + s[1..]
  {
    LowerAfterLetter(s[1..]);
  }

  /** The chart titles begin with the calculation's value in title case;
      an underscore starts a new word. */
  lemma CalculationTitles()
    ensures Title(Average.Value()) == "Average"
    ensures Title(Min.Value()) == "Min"
    ensures Title(CalculationType.Median.Value()) == "Median"
    ensures Title(DiffAvg.Value()) == "Diff_Avg"
  {
    CapitalInitial("min");
    CapitalInitial("median");
    CapitalInitial("average");
    UnderscoreTitle();
  }

  lemma UnderscoreTitle()
    ensures Title("diff_avg") == "Diff_Avg"
  {
    var t := "diff_avg";
    CapitalInitial("avg");
    assert TitleAfter(t[4..], true) == "_" + TitleAfter("avg", false);
    assert TitleAfter(t[3..], true) == "f_Avg";
    assert TitleAfter(t[2..], true) == "ff_Avg";
    assert TitleAfter(t[1..], true) == "iff_Avg";
  }

  /** The chart's title. */
  function PlotTitle(metricName: string, kind: CalculationType): string {
    Title(kind.Value()) + " " + metricName + " by Station"
  }

  /** The chart's y-axis label: millimetres for precipitation, tenths of a
      degree for every other metric name. */
  function YAxisLabel(metricName: string): string {
    metricName + " " + if metricName == "precipitation" then "(mm)" else "(°C/10)"
  }

  /** What `handle_output` produces: a CSV file of the labelled values, a
      bar chart of them, or only an error log line. */
  datatype Emission =
    | CsvWritten(path: string, table: seq<LabelledRow>)
    | PlotShown(title: string, xLabel: string, yLabel: string, bars: seq<LabelledRow>)
    | OutputRejected

  function HandleOutput(rows: seq<LabelledRow>, output: string, outputFile: Option<string>,
                        metricName: string, kind: CalculationType): (e: Emission)
    ensures e.CsvWritten? <==> output == "csv"
    ensures e.PlotShown? <==> output == "plot"
    ensures e.CsvWritten? ==> e.table == rows && e.path == CsvPath(outputFile, metricName, kind)
    ensures e.PlotShown? ==> e.bars == rows && e.title == PlotTitle(metricName, kind)
                             && e.xLabel == "Station" && e.yLabel == YAxisLabel(metricName)
  {
    match output
    case "csv" => CsvWritten(CsvPath(outputFile, metricName, kind), rows)
    case "plot" => PlotShown(PlotTitle(metricName, kind), "Station", YAxisLabel(metricName), rows)
    case _ => OutputRejected
  }

  /** An output mode is rejected exactly when the validator would have
      refused it. */
  lemma OutputRejectedIffInvalid(rows: seq<LabelledRow>, output: string, outputFile: Option<string>,
                                 metricName: string, kind: CalculationType)
    ensures HandleOutput(rows, output, outputFile, metricName, kind).OutputRejected?
            <==> ValidateOutput(output).Fail?
  {
  }

  // ---------------------------------------------------------------------
  // `analyze_weather`

  /** Why a run ended in the guarded block's error log. */
  datatype Failure =
    | MissingDate                 // a date did not parse, so `pd.date_range` raised
    | LoadFailed(error: LoaderError)

  /** How a run of `analyze_weather` ends. */
  datatype Run =
    | RaisedBeforeGuard           // `CalculationType(...)` raised before the guarded block
    | Logged(failure: Failure)    // an exception inside the block was logged and swallowed
    | Completed(emission: Emission)

  /** What a run produces, given the loader's base URL and its session state
      when the run starts. */
  function Analysis(args: Args, base: string, s: Session, net: Network,
                    readStations: string -> Option<seq<StationRow>>,
                    readWeather: string -> Option<seq<Record>>): Run
  {
    match CalculationFromValue(args.calculation)
    case None => RaisedBeforeGuard
    case Some(kind) => Guarded(args, kind, base, s, net, readStations, readWeather)
  }

  /** What the guarded block produces. The station file is fetched first;
      the dates are needed only after it. */
  function Guarded(args: Args, kind: CalculationType, base: string, s: Session, net: Network,
                   readStations: string -> Option<seq<StationRow>>,
                   readWeather: string -> Option<seq<Record>>): Run
  {
    var metadata := MetadataFrom(FetchedText(s, net, FileUrl(base, StationsCsv)), readStations);
    var start, end := ParseDate(args.startDate), ParseDate(args.endDate);
    if start.None? || end.None? then Logged(MissingDate)
    else
      var dates := RequestedDates(start.value, end.value, WeekdayFilter(args.filter));
      match MergeTables(DateTables(base, dates, AfterFetch(s), net, readWeather))
      case Err(e) => Logged(LoadFailed(e))
      case Ok(data) => Completed(Report(args, kind, data, metadata))
  }

  /** The steps after loading: narrow the rows, reduce each station's
      values, label the stations, and emit the result. */
  function Report(args: Args, kind: CalculationType, data: seq<Record>, metadata: map<string, string>): Emission {
    var metric := MetricCode(args.metric);
    var rows := Calculate(KeepMetric(KeepStations(data, args.stations), metric), metric, kind);
    HandleOutput(Relabel(rows, metadata), args.output, args.outputFile, args.metric, kind)
  }

  /** The weather files a run requests: none when a date does not parse. */
  function DateRequests(args: Args, base: string): seq<string> {
    var start, end := ParseDate(args.startDate), ParseDate(args.endDate);
    if start.None? || end.None? then []
    else DateUrls(base, RequestedDates(start.value, end.value, WeekdayFilter(args.filter)))
  }

  /** A calculation name that is not a member's value, such as "mean",
      raises before the guarded block: the run fetches nothing and leaves
      the loader's session alone. */
  lemma UnknownCalculationRaises(args: Args, base: string, s: Session, net: Network,
                                 readStations: string -> Option<seq<StationRow>>,
                                 readWeather: string -> Option<seq<Record>>)
    requires !IsCalculationValue(args.calculation)
    ensures Analysis(args, base, s, net, readStations, readWeather) == RaisedBeforeGuard
  {
    CalculationRoundTrip(Average, args.calculation);
  }

  /** A request the validator accepts gets past every check of the run:
      the calculation name does not raise, both dates parse, and the output
      mode is not rejected. Without a weekday filter it also asks for at
      least one date, so the only way left to fail is a file that cannot be
      read. */
  lemma ValidatedRequestRuns(args: Args, now: DateTime, base: string, s: Session, net: Network,
                             readStations: string -> Option<seq<StationRow>>,
                             readWeather: string -> Option<seq<Record>>)
    requires ValidDateTime(now) && ValidateInput(args, now).Pass?
    ensures var run := Analysis(args, base, s, net, readStations, readWeather);
            && !run.RaisedBeforeGuard?
            && run != Logged(MissingDate)
            && (run.Completed? ==> !run.emission.OutputRejected?)
            && (args.filter == "none" ==> run != Logged(LoadFailed(NoDataframes)))
  {
    ValidateInputAcceptsExactly(args, now);
    var kind := CalculationFromValue(args.calculation).value;
    var start, end := ParseDate(args.startDate).value, ParseDate(args.endDate).value;
    var dates := RequestedDates(start, end, WeekdayFilter(args.filter));
    var loaded := MergeTables(DateTables(base, dates, AfterFetch(s), net, readWeather));
    assert Analysis(args, base, s, net, readStations, readWeather)
           == Guarded(args, kind, base, s, net, readStations, readWeather);
    if args.filter == "none" {
      OrderedRangeNonEmpty(start, end);
      assert loaded != Err(NoDataframes);
    }
    if loaded.Ok? {
      var metadata := MetadataFrom(FetchedText(s, net, FileUrl(base, StationsCsv)), readStations);
      assert !Report(args, kind, loaded.value, metadata).OutputRejected?;
    }
  }

  /** A range whose start does not come after its end holds its start. */
  lemma OrderedRangeNonEmpty(start: Date, end: Date)
    requires ValidDate(start) && ValidDate(end) && Ordinal(start) <= Ordinal(end)
    ensures start in RequestedDates(start, end, WeekdayFilter("none"))
  {
    OrdinalOrder(start, start);
    OrdinalOrder(end, start);
    RequestedDatesExact(start, end, None, start);
  }

  /** A run on a loader whose session was closed by an earlier run never
      completes: every fetch yields the empty text, so the station map is
      empty and the weather load fails. */
  lemma ClosedLoaderNeverCompletes(args: Args, base: string, net: Network,
                                   readStations: string -> Option<seq<StationRow>>,
                                   readWeather: string -> Option<seq<Record>>)
    ensures !Analysis(args, base, Closed, net, readStations, readWeather).Completed?
  {
    var start, end := ParseDate(args.startDate), ParseDate(args.endDate);
    if CalculationFromValue(args.calculation).Some? && start.Some? && end.Some? {
      var dates := RequestedDates(start.value, end.value, WeekdayFilter(args.filter));
      var tables := DateTables(base, dates, Closed, net, readWeather);
      if dates != [] {
        assert tables[0].None?;
      }
    }
  }

  /** A weekday filter that matches no day of the range leaves nothing to
      load: Wednesday 10 November 2021 alone, filtered to Mondays, ends in
      the error log with the loader's "no dataframes" error. */
  lemma WeekdayFilterCanEmptyTheRange(args: Args, base: string, s: Session, net: Network,
                                      readStations: string -> Option<seq<StationRow>>,
                                      readWeather: string -> Option<seq<Record>>)
    requires args.startDate == "2021-11-10" && args.endDate == "2021-11-10"
    requires args.filter == "mondays" && args.calculation == "average"
    ensures Analysis(args, base, s, net, readStations, readWeather) == Logged(LoadFailed(NoDataframes))
  {
    TwoDayRange();
    CalculationRoundTrip(Average, args.calculation);
    assert WeekdayFilter(args.filter) == Some(0);
    NoMondayInRange();
    EmptyRequestLogged(args, Average, base, s, net, readStations, readWeather);
  }

  /** Parsed dates that leave nothing to request end in "no dataframes". */
  lemma EmptyRequestLogged(args: Args, kind: CalculationType, base: string, s: Session, net: Network,
                           readStations: string -> Option<seq<StationRow>>,
                           readWeather: string -> Option<seq<Record>>)
    requires CalculationFromValue(args.calculation) == Some(kind)
    requires ParseDate(args.startDate).Some? && ParseDate(args.endDate).Some?
    requires RequestedDates(ParseDate(args.startDate).value, ParseDate(args.endDate).value,
                            WeekdayFilter(args.filter)) == []
    ensures Analysis(args, base, s, net, readStations, readWeather) == Logged(LoadFailed(NoDataframes))
  {
    var dates := RequestedDates(ParseDate(args.startDate).value, ParseDate(args.endDate).value,
                                WeekdayFilter(args.filter));
    assert DateTables(base, dates, AfterFetch(s), net, readWeather) == [];
  }

  /** 10 November 2021 was a Wednesday. */
  lemma NoMondayInRange()
    ensures ValidDate(Date(2021, 11, 10)) && Weekday(Date(2021, 11, 10)) == 2
    ensures RequestedDates(Date(2021, 11, 10), Date(2021, 11, 10), Some(0)) == []
  {
    var day := Date(2021, 11, 10);
    assert Ordinal(day) == 738104;
    assert DateRange(day, day) == [day];
  }

  /** Two days of readings for one station, 150 and 170 tenths of a degree
      (plus a precipitation row that the metric filter drops), give an
      average temperature of 16.0 degrees, written to the default CSV file. */
  lemma TwoDayTemperatureAverage(args: Args, s: Session, net: Network,
                                 readStations: string -> Option<seq<StationRow>>,
                                 readWeather: string -> Option<seq<Record>>, t1: string, t2: string)
    requires args == Args("2021-11-10", "2021-11-11", "temperature", None, "none", "average", "csv", None)
    requires s != Closed
    requires net(FileUrl(BaseUrl, WeatherFileName(Date(2021, 11, 10)))) == Some(t1) && t1 != ""
    requires net(FileUrl(BaseUrl, WeatherFileName(Date(2021, 11, 11)))) == Some(t2) && t2 != ""
    requires readWeather(t1) == Some([Record("USW00094846", "TAVG", 150.0), Record("USW00094846", "PRCP", 3.0)])
    requires readWeather(t2) == Some([Record("USW00094846", "TAVG", 170.0)])
    ensures var run := Analysis(args, BaseUrl, s, net, readStations, readWeather);
            && run.Completed? && run.emission.CsvWritten?
            && run.emission.path == "temperature_average.csv"
            && |run.emission.table| == 1 && run.emission.table[0].value == 16.0
  {
    TwoDayRun(args, s, net, readStations, readWeather, t1, t2);
    var metadata := MetadataFrom(FetchedText(s, net, FileUrl(BaseUrl, StationsCsv)), readStations);
    TwoDayReport(args, TwoDayRows(), metadata);
  }

  function TwoDayRows(): seq<Record> {
    [Record("USW00094846", "TAVG", 150.0), Record("USW00094846", "PRCP", 3.0), Record("USW00094846", "TAVG", 170.0)]
  }

  lemma TwoDayRun(args: Args, s: Session, net: Network,
                  readStations: string -> Option<seq<StationRow>>,
                  readWeather: string -> Option<seq<Record>>, t1: string, t2: string)
    requires args == Args("2021-11-10", "2021-11-11", "temperature", None, "none", "average", "csv", None)
    requires s != Closed
    requires net(FileUrl(BaseUrl, WeatherFileName(Date(2021, 11, 10)))) == Some(t1) && t1 != ""
    requires net(FileUrl(BaseUrl, WeatherFileName(Date(2021, 11, 11)))) == Some(t2) && t2 != ""
    requires readWeather(t1) == Some([Record("USW00094846", "TAVG", 150.0), Record("USW00094846", "PRCP", 3.0)])
    requires readWeather(t2) == Some([Record("USW00094846", "TAVG", 170.0)])
    ensures Analysis(args, BaseUrl, s, net, readStations, readWeather)
            == Completed(Report(args, Average, TwoDayRows(),
                                MetadataFrom(FetchedText(s, net, FileUrl(BaseUrl, StationsCsv)), readStations)))
  {
    var d1, d2 := Date(2021, 11, 10), Date(2021, 11, 11);
    CalculationRoundTrip(Average, "average");
    TwoDayRange();
    var dates := RequestedDates(d1, d2, WeekdayFilter(args.filter));
    assert dates == [d1, d2];
    var tables := DateTables(BaseUrl, dates, AfterFetch(s), net, readWeather);
    TwoDayTables(s, net, readWeather, t1, t2);
    TwoDayMerge(tables);
  }

  lemma TwoDayTables(s: Session, net: Network, readWeather: string -> Option<seq<Record>>, t1: string, t2: string)
    requires s != Closed
    requires net(FileUrl(BaseUrl, WeatherFileName(Date(2021, 11, 10)))) == Some(t1) && t1 != ""
    requires net(FileUrl(BaseUrl, WeatherFileName(Date(2021, 11, 11)))) == Some(t2) && t2 != ""
    ensures DateTables(BaseUrl, [Date(2021, 11, 10), Date(2021, 11, 11)], AfterFetch(s), net, readWeather)
            == [readWeather(t1), readWeather(t2)]
  {
  }

  lemma TwoDayReport(args: Args, data: seq<Record>, metadata: map<string, string>)
    requires args == Args("2021-11-10", "2021-11-11", "temperature", None, "none", "average", "csv", None)
    requires data == [Record("USW00094846", "TAVG", 150.0), Record("USW00094846", "PRCP", 3.0),
                      Record("USW00094846", "TAVG", 170.0)]
    ensures var e := Report(args, Average, data, metadata);
            && e.CsvWritten? && e.path == "temperature_average.csv"
            && |e.table| == 1 && e.table[0].value == 16.0
  {
    TwoDayAverage();
    var metric := MetricCode(args.metric);
    assert metric == Some(TemperatureCode);
    var rows := Calculate(KeepMetric(KeepStations(data, args.stations), metric), metric, Average);
    assert rows == [Row("USW00094846", 16.0)];
    var labelled := Relabel(rows, metadata);
    assert |labelled| == 1 && labelled[0].value == 16.0;
    assert CsvPath(None, "temperature", Average) == "temperature_average.csv";
    assert Report(args, Average, data, metadata) == HandleOutput(labelled, "csv", None, "temperature", Average);
  }

  lemma TwoDayRange()
    ensures ParseDate("2021-11-10") == Some(Date(2021, 11, 10))
    ensures ParseDate("2021-11-11") == Some(Date(2021, 11, 11))
    ensures RequestedDates(Date(2021, 11, 10), Date(2021, 11, 11), WeekdayFilter("none"))
            == [Date(2021, 11, 10), Date(2021, 11, 11)]
  {
    ParseAcceptsExamples();
    ParseNextDay();
    var d1, d2 := Date(2021, 11, 10), Date(2021, 11, 11);
    assert WeekdayFilter("none") == None;
    TwoDaySpan();
    assert DateRange(d2, d2) == [d2];
  }

  lemma ParseNextDay()
    ensures ParseDate("2021-11-11") == Some(Date(2021, 11, 11))
  {
    assert "2021-11-11"[5..] == "11-11";
    assert "2021-11-11"[5..][..2] == "11" && "2021-11-11"[5..][3..] == "11";
  }

  lemma TwoDaySpan()
    ensures ValidDate(Date(2021, 11, 10)) && ValidDate(Date(2021, 11, 11))
    ensures DateRange(Date(2021, 11, 10), Date(2021, 11, 11))
            == [Date(2021, 11, 10)] + DateRange(Date(2021, 11, 11), Date(2021, 11, 11))
  {
    var d1 := Date(2021, 11, 10);
    NextDayOrdinal(d1);
    assert NextDay(d1) == Date(2021, 11, 11);
  }

  lemma TwoDayMerge(tables: seq<Option<seq<Record>>>)
    requires tables == [Some([Record("USW00094846", "TAVG", 150.0), Record("USW00094846", "PRCP", 3.0)]),
                        Some([Record("USW00094846", "TAVG", 170.0)])]
    ensures MergeTables(tables) == Ok(TwoDayRows())
  {
    assert forall k :: 0 <= k < |tables| ==> tables[k].Some?;
    var p := Present(tables);
    assert p == [tables[0].value, tables[1].value];
    assert p[1..] == [tables[1].value] && p[1..][1..] == [];
    assert Concat(p[1..]) == tables[1].value;
    assert tables[0].value + tables[1].value == [Record("USW00094846", "TAVG", 150.0),
      Record("USW00094846", "PRCP", 3.0), Record("USW00094846", "TAVG", 170.0)];
  }

  lemma TwoDayAverage()
    ensures var d := [Record("USW00094846", "TAVG", 150.0), Record("USW00094846", "PRCP", 3.0),
                      Record("USW00094846", "TAVG", 170.0)];
            Calculate(KeepMetric(KeepStations(d, None), Some(TemperatureCode)), Some(TemperatureCode), Average)
            == [Row("USW00094846", 16.0)]
  {
    var id := "USW00094846";
    var r1, r2, r3 := Record(id, "TAVG", 150.0), Record(id, "PRCP", 3.0), Record(id, "TAVG", 170.0);
    var d := [r1, r2, r3];
    var kept := KeepMetric(d, Some(TemperatureCode));
    assert kept == [r1, r3] by {
      assert d[1..] == [r2, r3] && d[1..][1..] == [r3] && d[1..][1..][1..] == [];
    }
    var data := Rescale(kept, Some(TemperatureCode));
    var a, b := r1.(value := 15.0), r3.(value := 17.0);
    assert data == [a, b];
    assert data[1..] == [b] && data[1..][1..] == [];
    assert GroupKeys([b]) == [id];
    assert GroupKeys(data) == [id];
    assert StationValues([b], id) == [17.0];
    assert StationValues(data, id) == [15.0, 17.0];
    assert Mean([15.0, 17.0]) == 16.0 by {
      assert [15.0, 17.0][1..] == [17.0] && [17.0][1..] == [];
    }
  }

  class WeatherAnalyzer {
    const loader: AsyncDataLoader

    /** `__init__`: a loader for `BASE_URL`, with no session yet. */
    constructor ()
      ensures fresh(loader)
      ensures loader.baseUrl == BaseUrl && loader.session == NoSession
      ensures loader.requested == [] && loader.closes == 0
    {
      assert !EndsWithSlash(BaseUrl);
      loader := new AsyncDataLoader(BaseUrl);
    }

    /** `analyze_weather`: the run `Analysis` describes. The loader's
        session is closed once on every path that enters the guarded block,
        and left alone when the calculation name raises before it. */
    method AnalyzeWeather(args: Args, net: Network,
                          readStations: string -> Option<seq<StationRow>>,
                          readWeather: string -> Option<seq<Record>>)
      returns (run: Run)
      modifies loader
      ensures loader.baseUrl == old(loader.baseUrl)
      ensures run == Analysis(args, loader.baseUrl, old(loader.session), net, readStations, readWeather)
      ensures run.RaisedBeforeGuard? <==> CalculationFromValue(args.calculation).None?
      ensures run.RaisedBeforeGuard? ==>
        loader.session == old(loader.session) && loader.closes == old(loader.closes)
        && loader.requested == old(loader.requested)
      ensures !run.RaisedBeforeGuard? ==>
        loader.session == Closed && loader.closes == old(loader.closes) + 1
        && loader.requested == old(loader.requested) + [FileUrl(loader.baseUrl, StationsCsv)]
                               + DateRequests(args, loader.baseUrl)
    {
      var calculation := CalculationFromValue(args.calculation);
      if calculation.None? {
        return RaisedBeforeGuard;
      }
      run := RunGuarded(args, calculation.value, net, readStations, readWeather);
    }

    /** The guarded block of `analyze_weather` with its closing step: every
        exit, normal or through the error log, closes the loader. */
    method RunGuarded(args: Args, kind: CalculationType, net: Network,
                      readStations: string -> Option<seq<StationRow>>,
                      readWeather: string -> Option<seq<Record>>)
      returns (run: Run)
      modifies loader
      ensures loader.baseUrl == old(loader.baseUrl)
      ensures run == Guarded(args, kind, loader.baseUrl, old(loader.session), net, readStations, readWeather)
      ensures !run.RaisedBeforeGuard?
      ensures loader.requested == old(loader.requested) + [FileUrl(loader.baseUrl, StationsCsv)]
                                  + DateRequests(args, loader.baseUrl)
      ensures loader.session == Closed && loader.closes == old(loader.closes) + 1
    {
      var start := ParseDate(args.startDate);
      var end := ParseDate(args.endDate);
      var metric := MetricCode(args.metric);
      var filter := WeekdayFilter(args.filter);
      var metadata := loader.LoadMetadata(StationsCsv, net, readStations);
      if start.None? || end.None? {
        loader.Close();
        return Logged(MissingDate);
      }
      var dates := DateRange(start.value, end.value);
      if filter.Some? {
        var w := filter.value;
        dates := Filter(dates, d => OnWeekday(d, w));
      }
      assert dates == RequestedDates(start.value, end.value, filter);
      var loaded := loader.LoadWeatherData(dates, net, readWeather);
      if loaded.Err? {
        loader.Close();
        return Logged(LoadFailed(loaded.error));
      }
      var data := loaded.value;
      if args.stations.Some? && args.stations.value != [] {
        data := KeepStations(data, args.stations);
      }
      data := KeepMetric(data, metric);
      var result := Calculate(data, metric, kind);
      var labelled := Relabel(result, metadata);
      var emission := HandleOutput(labelled, args.output, args.outputFile, args.metric, kind);
      assert emission == Report(args, kind, loaded.value, metadata);
      loader.Close();
      run := Completed(emission);
    }
  }
}
