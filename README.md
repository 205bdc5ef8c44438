# weather_analyzer in Dafny

This is a model of the weather analysis tool. One run does the following:

- It checks the request: a date range, a metric (precipitation or temperature), an optional list of station ids, an optional weekday filter, a calculation (average, min, median, diff_avg), and an output mode (csv or plot).
- It fetches the station metadata file and one observation file per requested date from a fixed storage URL, over one lazily opened HTTP session.
- It concatenates the daily tables in date order.
- It keeps only the requested stations and metric. Temperature is stored in tenths of a degree, so it is divided by ten.
- It reduces each station's values to one number.
- It replaces each station id by the station's name.
- It writes the result to a CSV file or draws it as a bar chart.

The session is closed on every exit from the guarded part of the run.

Modules, one per concern:

- `Wrappers`: `Option`, `Result` and `Outcome`.
- `HelperTypes`: the calculation enumeration and the metric and weekday tables.
- `Calendar`: proleptic Gregorian dates, ordinals, weekdays, and `pandas.date_range` over days.
- `DateFormat`: `strptime`/`strftime` with `'%Y-%m-%d'`.
- `InputValidator`: the request checks.
- `Statistics`: mean, minimum and median over exact reals.
- `Dataset`: observation rows, concatenation, masks, and `groupby('station_id')` in ascending key order.
- `DataLoader`: the `AsyncDataLoader` class, whose session and request log are updated in place.
- `Analyzer`: the pure steps of a run, the `Analysis` function that describes a whole run, and the `WeatherAnalyzer` class whose `AnalyzeWeather` method is proved to produce that run and to close the session.

Some inputs are parameters of the model:

- The network: a function from URL to `Some(body)`, or `None` for a non-success status or a transport error. A request on a closed session yields the empty text without consulting it.
- `read_csv`: a function from text to rows, or `None` where pandas raises. On the empty text it always raises.
- The current time.

## Model

| member | source | states |
|---|---|---|
| HelperTypes.CalculationFromValue | weather_analysis/helper_types.py:5-9 | `CalculationType(s)` yields the member whose value is `s`, and nothing (Python raises) exactly when no member has value `s` |
| HelperTypes.CalculationValuesDistinct | weather_analysis/helper_types.py:5-9 | the enumeration has exactly four members, every member is listed, and their values are pairwise distinct |
| HelperTypes.CalculationRoundTrip | weather_analysis/helper_types.py:5-9 | looking a member up by its value gives it back; the validator's membership test agrees with the lookup; "mean" is not a member |
| HelperTypes.MetricsTable | weather_analysis/helper_types.py:11-14 | exactly two metric names; precipitation maps to PRCP and temperature to TAVG, and the codes differ |
| HelperTypes.WeekdaysTable | weather_analysis/helper_types.py:16-25 | "none" maps to no filter and the seven day names, Monday first, map one-to-one onto 0..6; nothing else is a key |
| DateFormat.ParseDate | weather_analysis/input_validator.py:22-23 | a successful `strptime` always yields a real calendar date |
| DateFormat.FormatDate | weather_analysis/async_data_loader.py:50 | `strftime('%Y-%m-%d')` is ten characters: digits everywhere except the dashes at positions 4 and 7 (with the round trip, this pins the zero-padded text) |
| DateFormat.ParseFormatRoundTrip | weather_analysis/async_data_loader.py:50 | parsing a formatted date gives the same date back |
| DateFormat.FormatDateInjective | weather_analysis/async_data_loader.py:50 | distinct dates format to distinct strings |
| DateFormat.ParseAcceptsExamples | weather_analysis/input_validator.py:22-23 | ISO dates parse, as do months and days without a leading zero, a day written as a space and a digit, and 29 February in a leap year |
| DateFormat.ParseRejectsMissingDays | weather_analysis/input_validator.py:22-25 | 29 February in 2021 and 1900 and 31 April do not parse |
| DateFormat.ParseRejectsOutOfRangeFields | weather_analysis/input_validator.py:22-25 | month 13, month 0 and year 0 do not parse |
| DateFormat.ParseRejectsMalformedText | weather_analysis/input_validator.py:22-25 | a two-digit year, trailing text and other separators do not parse |
| Calendar.Weekday | weather_analysis/weather_analyzer.py:44 | `weekday()` lies in 0..6 |
| Calendar.OrdinalOrder | weather_analysis/input_validator.py:27 | comparing dates is comparing their ordinals, and equal ordinals mean equal dates |
| Calendar.NextDayOrdinal | weather_analysis/weather_analyzer.py:42 | the next day is one ordinal and one weekday later, and valid unless the date is 9999-12-31 |
| Calendar.DateRange | weather_analysis/weather_analyzer.py:42 | `pd.date_range(start, end)` is empty when start is after end; otherwise it has end − start + 1 valid days, the i-th at start + i |
| Calendar.DateRangeExact | weather_analysis/weather_analyzer.py:42 | the range holds exactly the valid days between its ends, in strictly ascending calendar order |
| Calendar.MidnightAfter | weather_analysis/input_validator.py:29-30 | a date read as midnight is after `now` exactly when it is a later calendar day than `now`'s |
| InputValidator.ValidateInput | weather_analysis/input_validator.py:9-17 | a failure is one of the three date errors exactly when the date check fails; which date error is given is stated by `DateFormatError` and `FutureStartError` |
| InputValidator.DateFormatError | weather_analysis/input_validator.py:20-25 | the format error exactly when either date does not parse, whatever the other fields hold |
| InputValidator.FutureStartError | weather_analysis/input_validator.py:27-30 | the future-start error exactly when both dates parse, the start is not after the end, and the start is a later calendar day than today |
| InputValidator.FirstFailure | weather_analysis/input_validator.py:10-17 | checks run in order: the result passes iff every check passes; a failure is the first failing check, and every earlier check passed |
| InputValidator.ValidateInputAcceptsExactly | weather_analysis/input_validator.py:9-47 | validation passes iff both dates parse, start <= end, start <= today, and the metric, filter, calculation and output are in their tables |
| InputValidator.InvertedRangeDominates | weather_analysis/input_validator.py:27-28 | the inverted-range error is reported iff the end is an earlier calendar day than the start, whatever the other fields hold (so two spellings of one day never get it) |
| InputValidator.StartComparedWithToday | weather_analysis/input_validator.py:27-30 | only the start date is compared with now, by calendar day: today passes at any time and tomorrow fails |
| InputValidator.ChecksRunInOrder | weather_analysis/input_validator.py:10-15 | each of the four table errors (metric, filter, calculation, output) implies that every earlier check passed and its own check failed |
| InputValidator.MessageIdentifiesError | weather_analysis/input_validator.py:25-47 | the seven `ValueError` messages are pairwise distinct, so the message tells which check failed |
| Statistics.Minimum | weather_analysis/weather_analyzer.py:72 | `min()` is one of the values and no value is below it |
| Statistics.Sort | weather_analysis/weather_analyzer.py:74 | the sorted column is ascending and a permutation of the column |
| Statistics.AscendingPermutationUnique | weather_analysis/weather_analyzer.py:74 | two ascending permutations of the same values are equal |
| Statistics.MedianOfAnyAscendingArrangement | weather_analysis/weather_analyzer.py:74 | `median()` is the middle element (odd count) or the mean of the two middle elements (even count) of any ascending arrangement of the values |
| Statistics.MedianWithinValues | weather_analysis/weather_analyzer.py:74 | the median is at least the minimum and at most some value |
| Statistics.MedianOfConstant | weather_analysis/weather_analyzer.py:74 | the median of a constant column is that constant |
| Statistics.MeanOfConstant | weather_analysis/weather_analyzer.py:70 | the mean of a constant column is that constant |
| Statistics.MinimumAtMostMean | weather_analysis/weather_analyzer.py:70-72 | the minimum never exceeds the mean |
| Statistics.MeanIsExactlyWhenNoDeviation | weather_analysis/weather_analyzer.py:70 | values average to c iff their total deviation from c is zero |
| Statistics.Scaled | weather_analysis/weather_analyzer.py:67 | dividing a column by c divides each element by c and keeps its length |
| Statistics.MeanScaled | weather_analysis/weather_analyzer.py:66-70 | dividing every value by a positive c divides the mean by c |
| Dataset.Concat | weather_analysis/async_data_loader.py:62 | `pd.concat` has as many rows as all tables together |
| Dataset.ConcatLayout | weather_analysis/async_data_loader.py:62 | table k's rows appear whole and in order, right after the rows of the earlier tables |
| Dataset.Filter | weather_analysis/weather_analyzer.py:44-48 | a boolean mask keeps exactly the elements that satisfy it and never adds rows |
| Dataset.FilterCounts | weather_analysis/weather_analyzer.py:44-48 | a boolean mask keeps every satisfying element exactly as many times as it occurs and drops every other one |
| Dataset.FilterAppend | weather_analysis/weather_analyzer.py:44-48 | a mask distributes over concatenation, so kept rows stay in their order |
| Dataset.StringLessTrichotomy | weather_analysis/weather_analyzer.py:70 | Python's string order is irreflexive, asymmetric and total |
| Dataset.StringLessTransitive | weather_analysis/weather_analyzer.py:70 | Python's string order is transitive |
| Dataset.InsertKey | weather_analysis/weather_analyzer.py:70 | inserting a key keeps the key list strictly ascending and adds exactly that key |
| Dataset.GroupKeys | weather_analysis/weather_analyzer.py:70 | the `groupby` keys are strictly ascending and are exactly the station ids of the table |
| Dataset.AscendingKeysDistinct | weather_analysis/weather_analyzer.py:70 | each group key occurs once |
| Dataset.StationsOccur | weather_analysis/weather_analyzer.py:70 | a station has a group iff some row carries its id |
| Dataset.StationValuesNonEmpty | weather_analysis/weather_analyzer.py:70 | a station's group is non-empty iff the station occurs |
| Dataset.Values | weather_analysis/weather_analyzer.py:76 | the `value` column has one entry per row, in row order |
| Dataset.WithoutStation | weather_analysis/weather_analyzer.py:75-78 | removing one station's rows removes exactly its id and leaves every other group unchanged |
| Dataset.GroupSplit | weather_analysis/weather_analyzer.py:75-78 | the overall deviation is one group's deviation plus the rest's |
| Dataset.UniformGroupMeans | weather_analysis/weather_analyzer.py:75-78 | if every group averages to c, the whole column deviates from c by zero |
| DataLoader.StripTrailingSlashes | weather_analysis/async_data_loader.py:20 | `rstrip("/")` gives a prefix that does not end in a slash, and only slashes were removed |
| DataLoader.StripTrailingSlashesFacts | weather_analysis/async_data_loader.py:20 | stripping is idempotent, and an all-slash base strips to the empty string |
| DataLoader.InitBaseUrl | weather_analysis/async_data_loader.py:18-20 | the constructor fails exactly for the empty base; otherwise it stores the base without trailing slashes |
| DataLoader.FileUrlSplits | weather_analysis/async_data_loader.py:28 | a file URL splits back into the base, one slash, and the file name |
| DataLoader.WeatherFileName | weather_analysis/async_data_loader.py:50 | a daily file name is 27 characters long |
| DataLoader.WeatherFileNameDate | weather_analysis/async_data_loader.py:50 | the file name is the prefix, ten characters of zero-padded digits and dashes that parse back to the date, and ".csv" |
| DataLoader.WeatherFileNameInjective | weather_analysis/async_data_loader.py:50 | distinct dates are fetched from distinct files |
| DataLoader.ReadCsv | weather_analysis/async_data_loader.py:52 | `read_csv` raises on the empty text and otherwise gives the reader's result |
| DataLoader.FetchedText | weather_analysis/async_data_loader.py:23-35 | `_get_file` returns the body on success, and "" on any failure or on a closed session |
| DataLoader.AfterFetch | weather_analysis/async_data_loader.py:25-26 | a fetch leaves a session behind, and the session is closed only if it was already closed |
| DataLoader.StationMapLastWins | weather_analysis/async_data_loader.py:42 | `dict(zip(ids, names))` has exactly the ids that occur, each mapped to the name on its last row |
| DataLoader.MetadataFrom | weather_analysis/async_data_loader.py:37-45 | a metadata file that does not parse gives the empty map; one that parses gives `dict(zip(ids, names))` of its rows |
| DataLoader.MergeTables | weather_analysis/async_data_loader.py:55-62 | no dates gives "no dataframes"; any unreadable file gives the read error; the load succeeds exactly when there is at least one date and every file parses, and then the row count is the sum of the tables' |
| DataLoader.MergedInDateOrder | weather_analysis/async_data_loader.py:55-62 | in a successful load, each date's rows sit at their date's place in the merged table |
| DataLoader.DateTables | weather_analysis/async_data_loader.py:49-56 | entry i is `read_csv` of the text fetched from date i's file URL |
| DataLoader.DateUrls | weather_analysis/async_data_loader.py:49-55 | entry i is the URL of date i's file |
| DataLoader.FailedFetchFailsLoad | weather_analysis/async_data_loader.py:49-52 | one date whose fetch fails makes the whole load fail with the read error |
| DataLoader.AsyncDataLoader.constructor | weather_analysis/async_data_loader.py:18-21 | a non-empty base is stored stripped of trailing slashes, with no session and nothing requested |
| DataLoader.AsyncDataLoader.GetFile | weather_analysis/async_data_loader.py:23-35 | opens the session on first use, logs the request base + "/" + name, and returns `FetchedText` |
| DataLoader.AsyncDataLoader.LoadMetadata | weather_analysis/async_data_loader.py:37-45 | one request for the station file, and the map `MetadataFrom` gives for its text |
| DataLoader.AsyncDataLoader.LoadWeatherData | weather_analysis/async_data_loader.py:47-62 | requests the dates' files in date order, leaves the session alone for no dates, and returns `MergeTables` of the per-date results |
| DataLoader.AsyncDataLoader.Close | weather_analysis/async_data_loader.py:64-67 | closes the session if one was ever opened, and otherwise changes nothing |
| Analyzer.MetricCode | weather_analysis/weather_analyzer.py:29 | `METRICS.get` gives the code for exactly the known names |
| Analyzer.WeekdayFilter | weather_analysis/weather_analyzer.py:31 | `WEEKDAYS.get` gives the table's entry for every key, so a day name gives its weekday and "none" gives no filter; an unknown name gives no filter |
| Analyzer.FilterKeepsDateOrder | weather_analysis/weather_analyzer.py:43-44 | masking dates in calendar order keeps them in calendar order |
| Analyzer.RequestedDates | weather_analysis/weather_analyzer.py:42-44 | every requested date is a valid date |
| Analyzer.RequestedDatesExact | weather_analysis/weather_analyzer.py:42-44 | the requested dates are exactly the days from start to end on the filter's weekday, in calendar order |
| Analyzer.KeepStations | weather_analysis/weather_analyzer.py:46-47 | an absent or empty station list keeps the table; otherwise exactly the rows of the listed stations are kept |
| Analyzer.KeepMetric | weather_analysis/weather_analyzer.py:48 | exactly the rows of the requested metric are kept; an unknown metric keeps none |
| Analyzer.StationMaskCounts | weather_analysis/weather_analyzer.py:46-47 | the station mask keeps every row of a listed station as many times as it occurs and drops the rest; with no list the rows are unchanged as a multiset |
| Analyzer.MetricMaskCounts | weather_analysis/weather_analyzer.py:48 | the metric mask keeps every row of the requested metric as many times as it occurs and drops the rest |
| Analyzer.Rescale | weather_analysis/weather_analyzer.py:66-67 | each row keeps its station and metric, and its value is divided by ten for temperature |
| Analyzer.RescaleKeepsStations | weather_analysis/weather_analyzer.py:66-67 | rescaling keeps the stations and the group order |
| Analyzer.RescaleKeepsGroups | weather_analysis/weather_analyzer.py:66-67 | each station's group is divided by ten for temperature and unchanged otherwise |
| Analyzer.Calculate | weather_analysis/weather_analyzer.py:64-80 | one row per station of the table, in strictly ascending id order, each holding `GroupStatistic` of the rescaled table: the mean, minimum or median of the station's values (`StationValues`), or that mean minus the overall mean, where `Reading` divides a temperature by ten |
| Analyzer.RowOf | weather_analysis/weather_analyzer.py:69-78 | every station of the table has a row in the result |
| Analyzer.CalculateAverage | weather_analysis/weather_analyzer.py:66-70 | average is the mean of the station's values as read, divided by ten for temperature |
| Analyzer.CalculateMin | weather_analysis/weather_analyzer.py:66-72 | min is one of the station's rescaled values and no rescaled value is below it |
| Analyzer.MinBelowAverageAndMedian | weather_analysis/weather_analyzer.py:69-74 | the three reductions list the same stations, and min never exceeds average or median |
| Analyzer.ConstantStation | weather_analysis/weather_analyzer.py:69-74 | a station whose rows all hold v gets v, rescaled, from average, min and median |
| Analyzer.RescaledMean | weather_analysis/weather_analyzer.py:66-70 | rescaling divides a station's mean by ten for temperature |
| Analyzer.OverallMeanOfUniformGroups | weather_analysis/weather_analyzer.py:75-78 | groups that all average to c make a table that averages to c |
| Analyzer.DiffAvgZeroWhenMeansAgree | weather_analysis/weather_analyzer.py:75-78 | when every station's mean is the same, diff_avg is zero for every station |
| Analyzer.TemperatureInTenths | weather_analysis/weather_analyzer.py:66-72 | a TAVG reading of 250 reduces to 25.0, and a PRCP reading of 250 stays 250.0 |
| Analyzer.Relabel | weather_analysis/weather_analyzer.py:54 | each row keeps its place and value, and is labelled with its id's name iff the map holds the id |
| Analyzer.RelabelFromStationFile | weather_analysis/weather_analyzer.py:54 | with the map read from the station file, a row has no label iff no line carries its id; otherwise its label is the name on the last such line |
| Analyzer.DefaultCsvNameParts | weather_analysis/weather_analyzer.py:87-88 | the default file name is the metric name, "_", and ".csv" at the end, and differs between calculations |
| Analyzer.CsvPath | weather_analysis/weather_analyzer.py:86-89 | the given file is used unless it is absent or empty, in which case the default name is used |
| Analyzer.Title | weather_analysis/weather_analyzer.py:94 | `str.title()` keeps the length |
| Analyzer.TitleByPosition | weather_analysis/weather_analyzer.py:94 | each character is lower-cased after a letter and upper-cased everywhere else |
| Analyzer.CalculationTitles | weather_analysis/weather_analyzer.py:94 | the titles are "Average", "Min", "Median" and "Diff_Avg" |
| Analyzer.HandleOutput | weather_analysis/weather_analyzer.py:83-101 | csv writes the rows to `CsvPath`; plot draws the rows with the title, "Station" and the unit label; any other mode only logs |
| Analyzer.OutputRejectedIffInvalid | weather_analysis/weather_analyzer.py:100-101 | the output step logs an error exactly for the modes the validator refuses |
| Analyzer.UnknownCalculationRaises | weather_analysis/weather_analyzer.py:30 | a calculation name that is no member's value, such as "mean", raises before the guarded block |
| Analyzer.ValidatedRequestRuns | weather_analysis/weather_analyzer.py:24-61 | a validated request does not raise, parses both dates, and is not rejected by the output step; without a weekday filter it also requests at least one date |
| Analyzer.ClosedLoaderNeverCompletes | weather_analysis/weather_analyzer.py:38-61 | a run on a loader closed by an earlier run never completes |
| Analyzer.WeekdayFilterCanEmptyTheRange | weather_analysis/weather_analyzer.py:42-45 | 2021-11-10 alone, filtered to Mondays, ends in the error log with "no dataframes" |
| Analyzer.EmptyRequestLogged | weather_analysis/weather_analyzer.py:42-45 | when both dates parse but no date is left to request, the run ends in the error log with "no dataframes" |
| Analyzer.NoMondayInRange | weather_analysis/weather_analyzer.py:43-44 | 2021-11-10 is a Wednesday, so the Monday mask of that one day is empty |
| Analyzer.TwoDayTemperatureAverage | weather_analysis/weather_analyzer.py:24-61 | readings of 150 and 170 tenths over two days give one row of 16.0, written to temperature_average.csv |
| Analyzer.WeatherAnalyzer.constructor | weather_analysis/weather_analyzer.py:19-21 | a fresh loader for `BASE_URL`, with no session yet |
| Analyzer.WeatherAnalyzer.AnalyzeWeather | weather_analysis/weather_analyzer.py:24-61 | the run is `Analysis`; it raises before the guard iff the calculation is unknown, and then touches nothing; otherwise it closes the session exactly once and requests the station file, then the dates' files |
| Analyzer.WeatherAnalyzer.RunGuarded | weather_analysis/weather_analyzer.py:38-61 | the guarded block with its `finally`: the run is `Guarded`, whose completed emission is `Report` (station and metric masks, `calculate`, relabelling, output step); the session ends closed with one more close, and the requests are the station file then the dates' files (`DateRequests`) |

## Behaviour worth knowing

Three consequences of the code that a reader might not expect:

- **A failed fetch aborts the run.** `_get_file` returns "" for a failed request, and `read_csv` raises on "". So one missing daily file ends the whole run in the error log with no output (`DataLoader.FailedFetchFailsLoad`); the date is not treated as having no records.
- **"No dataframes" only for an empty date list.** The loader raises it only when no dates were requested. A load whose tables hold no rows succeeds with an empty table and produces an empty result.
- **An unknown station gets a missing label.** `index.map(dict)` gives a station absent from the metadata a missing label, not its raw id (`Analyzer.Relabel`).

## Left out

- HTTP and aiohttp internals. The network is a function from URL to an optional body. Status codes, timeouts and the error log are not modelled.
- Concurrency of `asyncio.gather`. The fetches are made one after another in date order. This is the order `gather` returns results in, and the only order the merged table depends on.
- pandas internals. `read_csv` is a parameter. NaN handling is not modelled: a missing value, or a `diff_avg` over an empty table, has no counterpart among exact reals. Values are reals, not floats.
- Logging, chart drawing and `main`: the argument parser, and the call order of validation and construction. `handle_output`'s plot branch is modelled as the title, axis labels and bars it draws.
- DateFormat.ParseDate: stands for both `strptime` in the validator and `dateparser.parse` in `analyze_weather`. `dateparser` accepts many more formats, such as relative dates and other languages. Those are not modelled, so a date the validator accepts is read the same way by both.
- DateFormat.ParseDate: Unicode digits, which `strptime` accepts, are left out.
- InputValidator.ValidateInput: the dates of `Args` are always strings. `argparse` leaves an omitted `--start_date` or `--end_date` as `None`. `strptime(None, ...)` then raises `TypeError`, which neither `except ValueError` nor `except AssertionError` in `validate_input` catches, and `dateparser.parse(None)` raises before the `try` of `analyze_weather`. That uncaught path is not modelled.
- DateFormat.FormatDate: Python's unpadded years below 1000 are not modelled. The year is always written with four digits.
- Calendar.DateRange: the pandas `Timestamp` bounds (1677 to 2262) are not modelled. Any date in years 1 to 9999 is allowed.
- Analyzer.Title: covers ASCII letters only. Other characters are left unchanged and do not count as letters.
- Analyzer.Calculate: the source overwrites the `value` column of the filtered frame in place. That frame is a fresh copy nobody else reads, so the step is a pure function here.
- DataLoader.AsyncDataLoader.constructor: the source's assertion is a precondition here. `InitBaseUrl` models its failing case.
- DataLoader.StationMapLastWins: the map's insertion order is not modelled. The mapping only looks names up.
- Analyzer.WeatherAnalyzer.RunGuarded: the `try`/`finally` block of `analyze_weather` is a method of its own. It closes the loader on each of its exits, which is what the `finally` clause does.
- Analyzer.WeatherAnalyzer.AnalyzeWeather: the informational log line after the `finally` block is not modelled.
- The test file only constructs an analyzer and calls `analyze_weather` with calculation "mean". That name is no member's value, so `Analyzer.UnknownCalculationRaises` covers that call.
