/** `AsyncDataLoader`: fetches the station metadata file and one
    observations file per date from a base URL over one lazily opened
    session, and merges the per-date tables in the order of the dates.

    The network is a parameter: a function from URL to the response body
    on a success status, or `None` for a non-success status, a transport
    error or a timeout. `read_csv` is a parameter too, from text to rows or
    `None` where pandas raises; on the empty text pandas always raises,
    which `ReadCsv` makes explicit. The concurrent fan-out of
    `asyncio.gather` is modelled as fetching the dates one after another
    in their given order, which is the order `gather` returns results in. */
module DataLoader {
  import opened Wrappers
  import opened Calendar
  import opened DateFormat
  import opened Dataset

  /** The default metadata file name. */
  const StationsCsv: string := "2021_weather_stations.csv"

  /** Response body on success, `None` on any failure, per URL. */
  type Network = string -> Option<string>

  /** One row of the metadata file: its `id` and `name` columns. */
  datatype StationRow = StationRow(id: string, name: string)

  /** The session field: never opened, open, or closed after use. */
  datatype Session = NoSession | Open | Closed

  datatype LoaderError =
    | BaseUrlRequired   // the constructor's assertion fails
    | NoDataframes      // `ValueError("No dataframes found for requested dates.")`
    | ReadFailed        // `read_csv` raised on one of the fetched files

  predicate EndsWithSlash(s: string) {
    |s| > 0 && s[|s| - 1] == '/'
  }

  predicate AllSlashes(s: string) {
    forall i :: 0 <= i < |s| ==> s[i] == '/'
  }

  /** `s.rstrip("/")`: `s` without its trailing slashes. */
  function StripTrailingSlashes(s: string): (r: string)
    ensures !EndsWithSlash(r)
    ensures |r| <= |s| && s[..|r|] == r && AllSlashes(s[|r|..])
  {
    if EndsWithSlash(s) then
      var r := StripTrailingSlashes(s[..|s| - 1]);
      assert s[..|s| - 1][..|r|] == s[..|r|];
      assert AllSlashes(s[|r|..]) by {
        forall i | 0 <= i < |s[|r|..]| ensures s[|r|..][i] == '/' {
          if |r| + i < |s| - 1 {
            assert s[|r|..][i] == s[..|s| - 1][|r|..][i];
          }
        }
      }
      r
    else s
  }

  /** Stripping twice strips nothing more; a base made only of slashes
      strips to the empty string. */
  lemma StripTrailingSlashesFacts(s: string)
    ensures StripTrailingSlashes(StripTrailingSlashes(s)) == StripTrailingSlashes(s)
    ensures AllSlashes(s) ==> StripTrailingSlashes(s) == ""
  {
  }

  /** What `__init__` stores as the base URL: the assertion rejects the
      empty string, and the check comes before stripping. */
  function InitBaseUrl(base: string): (r: Result<string, LoaderError>)
    ensures r.Err? <==> base == ""
    ensures r.Ok? ==> !EndsWithSlash(r.value) && |r.value| <= |base|
                      && base[..|r.value|] == r.value && AllSlashes(base[|r.value|..])
  {
    if base == "" then Err(BaseUrlRequired) else Ok(StripTrailingSlashes(base))
  }

  /** The request URL for a file: base, one slash, file name. */
  function FileUrl(base: string, filename: string): string {
    base + "/" + filename
  }

  /** A file URL splits back into the base and the file name: the base is
      everything before the slash that follows it. */
  lemma FileUrlSplits(base: string, filename: string)
    ensures |FileUrl(base, filename)| == |base| + 1 + |filename|
    ensures FileUrl(base, filename)[..|base|] == base
    ensures FileUrl(base, filename)[|base|] == '/'
    ensures FileUrl(base, filename)[|base| + 1..] == filename
  {
  }

  /** `f"weather_data_{date.strftime('%Y-%m-%d')}.csv"`. */
  function WeatherFileName(d: Date): (name: string)
    requires ValidDate(d)
    ensures |name| == 27
  {
    "weather_data_" + FormatDate(d) + ".csv"
  }

  /** The date can be read back out of its file name, so distinct dates are
      fetched from distinct files. */
  lemma WeatherFileNameDate(d: Date)
    requires ValidDate(d)
    ensures WeatherFileName(d)[..13] == "weather_data_"
    ensures WeatherFileName(d)[23..] == ".csv"
    ensures ParseDate(WeatherFileName(d)[13..23]) == Some(d)
    ensures forall i :: 13 <= i < 23 && i != 17 && i != 20 ==> IsDigit(WeatherFileName(d)[i])
  {
    assert WeatherFileName(d)[13..23] == FormatDate(d);
    forall i | 13 <= i < 23 && i != 17 && i != 20 ensures IsDigit(WeatherFileName(d)[i]) {
      assert WeatherFileName(d)[i] == FormatDate(d)[i - 13];
    }
    ParseFormatRoundTrip(d);
  }

  lemma WeatherFileNameInjective(a: Date, b: Date)
    requires ValidDate(a) && ValidDate(b) && WeatherFileName(a) == WeatherFileName(b)
    ensures a == b
  {
    WeatherFileNameDate(a);
    WeatherFileNameDate(b);
  }

  /** `pd.read_csv(StringIO(text))` with a given reader; the empty text
      has no columns to parse, so pandas raises on it. */
  function ReadCsv<T>(reader: string -> Option<seq<T>>, text: string): (r: Option<seq<T>>)
    ensures text == "" ==> r == None
    ensures text != "" ==> r == reader(text)
  {
    if text == "" then None else reader(text)
  }

  /** The text `_get_file` returns when its request is made with the
      session in state `s`: the body on success and "" on any failure; a
      closed session makes the request itself fail. */
  function FetchedText(s: Session, net: Network, url: string): (text: string)
    ensures s == Closed ==> text == ""
    ensures s != Closed && net(url).None? ==> text == ""
    ensures s != Closed && net(url).Some? ==> text == net(url).value
  {
    if s == Closed then "" else net(url).GetOr("")
  }

  /** The session state after a fetch: opened if it had never been. */
  function AfterFetch(s: Session): (r: Session)
    ensures r != NoSession
    ensures r == Closed <==> s == Closed
  {
    if s == NoSession then Open else s
  }

  /** `dict(zip(ids, names))`. */
  function StationMap(rows: seq<StationRow>): map<string, string> {
    if rows == [] then map[]
    else StationMap(rows[..|rows| - 1])[rows[|rows| - 1].id := rows[|rows| - 1].name]
  }

  /** The map pairs each id that occurs with a name, and that name is the
      one on the last row with that id: a later duplicate overwrites an
      earlier one. */
  lemma {:induction false} StationMapLastWins(rows: seq<StationRow>)
    ensures forall id :: id in StationMap(rows) <==> exists i :: 0 <= i < |rows| && rows[i].id == id
    ensures forall i :: 0 <= i < |rows| && (forall j :: i < j < |rows| ==> rows[j].id != rows[i].id)
                        ==> rows[i].id in StationMap(rows) && StationMap(rows)[rows[i].id] == rows[i].name
  {
    if rows != [] {
      var init := rows[..|rows| - 1];
      StationMapLastWins(init);
      forall id ensures id in StationMap(rows) <==> exists i :: 0 <= i < |rows| && rows[i].id == id {
        if id in StationMap(init) {
          var i :| 0 <= i < |init| && init[i].id == id;
          assert rows[i].id == id;
        }
        if exists i :: 0 <= i < |rows| && rows[i].id == id {
          var i :| 0 <= i < |rows| && rows[i].id == id;
          if i < |rows| - 1 {
            assert init[i].id == id;
          }
        }
      }
      forall i | 0 <= i < |rows| && (forall j :: i < j < |rows| ==> rows[j].id != rows[i].id)
        ensures rows[i].id in StationMap(rows) && StationMap(rows)[rows[i].id] == rows[i].name
      {
        if i < |rows| - 1 {
          assert init[i] == rows[i];
          assert forall j :: i < j < |init| ==> init[j] == rows[j];
        }
      }
    }
  }

  /** What `load_metadata` returns for the fetched text: the map of the
      parsed rows, or the empty map when `read_csv` raises. */
  function MetadataFrom(text: string, readStations: string -> Option<seq<StationRow>>): (m: map<string, string>)
    ensures ReadCsv(readStations, text).None? ==> m == map[]
    ensures ReadCsv(readStations, text).Some? ==> m == StationMap(ReadCsv(readStations, text).value)
  {
    match ReadCsv(readStations, text)
    case Some(rows) => StationMap(rows)
    case None => map[]
  }

  /** What `load_weather_data` makes of the per-date parse results, in date
      order: `ValueError` for no dates at all, the first `read_csv` error
      if any file failed to parse, and otherwise the tables concatenated. */
  function MergeTables(tables: seq<Option<seq<Record>>>): (r: Result<seq<Record>, LoaderError>)
    ensures r == Err(NoDataframes) <==> tables == []
    ensures r == Err(ReadFailed) <==> tables != [] && exists k :: 0 <= k < |tables| && tables[k].None?
    ensures r.Ok? <==> tables != [] && forall k :: 0 <= k < |tables| ==> tables[k].Some?
    ensures r.Ok? ==> |r.value| == TotalRows(Present(tables))
  {
    if tables == [] then Err(NoDataframes)
    else if exists k :: 0 <= k < |tables| && tables[k].None? then Err(ReadFailed)
    else Ok(Concat(Present(tables)))
  }

  /** The tables themselves, where every parse succeeded. */
  function Present(tables: seq<Option<seq<Record>>>): (r: seq<seq<Record>>)
    requires forall k :: 0 <= k < |tables| ==> tables[k].Some?
    ensures |r| == |tables| && forall k :: 0 <= k < |tables| ==> r[k] == tables[k].value
  {
    seq(|tables|, k requires 0 <= k < |tables| => tables[k].value)
  }

  /** Each date's file holds its rows at its own place in the merged table:
      right after the rows of all earlier dates, whatever order the fetches
      finished in. */
  lemma MergedInDateOrder(tables: seq<Option<seq<Record>>>, k: int)
    requires 0 <= k < |tables| && MergeTables(tables).Ok?
    ensures forall j :: 0 <= j < |tables| ==> tables[j].Some?
    ensures var rows := MergeTables(tables).value;
            var start := TotalRows(Present(tables)[..k]);
            start + |tables[k].value| <= |rows|
            && rows[start..start + |tables[k].value|] == tables[k].value
  {
    ConcatLayout(Present(tables), k);
  }

  /** The parse result for each date, fetched with the session in state `s`. */
  function DateTables(base: string, dates: seq<Date>, s: Session, net: Network,
                      readWeather: string -> Option<seq<Record>>): (r: seq<Option<seq<Record>>>)
    requires forall i :: 0 <= i < |dates| ==> ValidDate(dates[i])
    ensures |r| == |dates|
    ensures forall i :: 0 <= i < |dates| ==>
      r[i] == ReadCsv(readWeather, FetchedText(s, net, FileUrl(base, WeatherFileName(dates[i]))))
  {
    seq(|dates|, i requires 0 <= i < |dates| =>
      ReadCsv(readWeather, FetchedText(s, net, FileUrl(base, WeatherFileName(dates[i])))))
  }

  /** The URLs requested for a list of dates, in date order. */
  function DateUrls(base: string, dates: seq<Date>): (r: seq<string>)
    requires forall i :: 0 <= i < |dates| ==> ValidDate(dates[i])
    ensures |r| == |dates|
    ensures forall i :: 0 <= i < |dates| ==> r[i] == FileUrl(base, WeatherFileName(dates[i]))
  {
    seq(|dates|, i requires 0 <= i < |dates| => FileUrl(base, WeatherFileName(dates[i])))
  }

  /** A date whose file could not be fetched yields the empty text, on which
      `read_csv` raises, so the whole load fails: a single failed fetch is
      not tolerated. */
  lemma FailedFetchFailsLoad(base: string, dates: seq<Date>, s: Session, net: Network,
                             readWeather: string -> Option<seq<Record>>, k: int)
    requires forall i :: 0 <= i < |dates| ==> ValidDate(dates[i])
    requires 0 <= k < |dates| && net(FileUrl(base, WeatherFileName(dates[k]))).None?
    ensures MergeTables(DateTables(base, dates, s, net, readWeather)) == Err(ReadFailed)
  {
    var tables := DateTables(base, dates, s, net, readWeather);
    assert tables[k].None?;
  }

  class AsyncDataLoader {
    var baseUrl: string
    var session: Session
    /** Every URL requested so far, in order. */
    ghost var requested: seq<string>
    /** How many times `close` found a session and closed it. */
    ghost var closes: nat

    /** `__init__`: the base URL must be non-empty; it is stored without
        trailing slashes, and no session is opened yet. */
    constructor (base: string)
      requires InitBaseUrl(base).Ok?
      ensures baseUrl == InitBaseUrl(base).value && !EndsWithSlash(baseUrl)
      ensures session == NoSession && requested == [] && closes == 0
    {
      baseUrl := StripTrailingSlashes(base);
      session := NoSession;
      requested := [];
      closes := 0;
    }

    /** `_get_file`: opens the session on first use, requests
        base + "/" + filename, and returns the body or "" on any failure. */
    method GetFile(filename: string, net: Network) returns (text: string)
      modifies this
      ensures baseUrl == old(baseUrl) && closes == old(closes)
      ensures session == AfterFetch(old(session))
      ensures requested == old(requested) + [FileUrl(baseUrl, filename)]
      ensures text == FetchedText(old(session), net, FileUrl(baseUrl, filename))
    {
      if session == NoSession {
        session := Open;
      }
      var url := baseUrl + "/" + filename;
      requested := requested + [url];
      if session == Closed {
        text := "";
      } else {
        match net(url)
        case Some(body) => text := body;
        case None => text := "";
      }
    }

    /** `load_metadata`: one fetch, then the id-to-name map, or the empty
        map if the text does not parse. */
    method LoadMetadata(stationsFileName: string, net: Network,
                        readStations: string -> Option<seq<StationRow>>)
      returns (metadata: map<string, string>)
      modifies this
      ensures baseUrl == old(baseUrl) && closes == old(closes)
      ensures session == AfterFetch(old(session))
      ensures requested == old(requested) + [FileUrl(baseUrl, stationsFileName)]
      ensures metadata == MetadataFrom(FetchedText(old(session), net, FileUrl(baseUrl, stationsFileName)), readStations)
    {
      var raw := GetFile(stationsFileName, net);
      metadata := MetadataFrom(raw, readStations);
    }

    /** `load_weather_data`: one fetch per date, in date order, then the
        merge. */
    method LoadWeatherData(dates: seq<Date>, net: Network,
                           readWeather: string -> Option<seq<Record>>)
      returns (r: Result<seq<Record>, LoaderError>)
      requires forall i :: 0 <= i < |dates| ==> ValidDate(dates[i])
      modifies this
      ensures baseUrl == old(baseUrl) && closes == old(closes)
      ensures session == if dates == [] then old(session) else AfterFetch(old(session))
      ensures requested == old(requested) + DateUrls(baseUrl, dates)
      ensures r == MergeTables(DateTables(baseUrl, dates, old(session), net, readWeather))
    {
      var tables: seq<Option<seq<Record>>> := [];
      var i := 0;
      while i < |dates|
        invariant 0 <= i <= |dates|
        invariant baseUrl == old(baseUrl) && closes == old(closes)
        invariant session == if i == 0 then old(session) else AfterFetch(old(session))
        invariant tables == DateTables(baseUrl, dates, old(session), net, readWeather)[..i]
        invariant requested == old(requested) + DateUrls(baseUrl, dates)[..i]
      {
        var text := GetFile(WeatherFileName(dates[i]), net);
        tables := tables + [ReadCsv(readWeather, text)];
        i := i + 1;
      }
      assert tables == DateTables(baseUrl, dates, old(session), net, readWeather);
      assert DateUrls(baseUrl, dates)[..i] == DateUrls(baseUrl, dates);
      r := MergeTables(tables);
    }

    /** `close`: closes the session if one was ever opened, and does
        nothing otherwise. */
    method Close()
      modifies this
      ensures baseUrl == old(baseUrl) && requested == old(requested)
      ensures session == if old(session) == NoSession then NoSession else Closed
      ensures closes == if old(session) == NoSession then old(closes) else old(closes) + 1
    {
      if session != NoSession {
        session := Closed;
        closes := closes + 1;
      }
    }
  }
}
