/** `InputValidator.validate_input`: the request is checked before any
    network work, in a fixed order (dates, metric, weekday filter,
    calculation, output mode), and the first failing check decides the
    error. Every failure reaches the caller as `ValueError`: the date checks
    raise it directly, the other four fail an assertion that is converted.
    The current time, `datetime.now()`, is a parameter. */
module InputValidator {
  import opened Wrappers
  import opened Calendar
  import opened DateFormat
  import opened HelperTypes

  /** The parsed command line. */
  datatype Args = Args(
    startDate: string,
    endDate: string,
    metric: string,
    stations: Option<seq<string>>,
    filter: string,
    calculation: string,
    output: string,
    outputFile: Option<string>)

  /** The `ValueError`s that validation raises, one per failing check. */
  datatype ValidationError =
    | InvalidDateFormat
    | StartAfterEnd
    | StartInFuture
    | InvalidMetric
    | InvalidFilter
    | InvalidCalculation
    | InvalidOutput
  {
    /** The message the `ValueError` carries. */
    function Message(): string {
      match this
      case InvalidDateFormat => "Invalid date format. Use YYYY-MM-DD"
      case StartAfterEnd => "Start date must be before end date"
      case StartInFuture => "Start date must be in the past"
      case InvalidMetric => "Invalid metric. Choose between precipitation, temperature"
      case InvalidFilter =>
        "Invalid filter. Choose between none, mondays, tuesdays, wednesdays, thursdays, fridays, saturdays, sundays"
      case InvalidCalculation => "Invalid calculation. Choose between average, min, median, diff_avg"
      case InvalidOutput => "Invalid output method. Choose between csv or plot"
    }
  }

  /** Each error has its own message, so the message tells the caller which
      check failed. */
  lemma MessageIdentifiesError(a: ValidationError, b: ValidationError)
    ensures a.Message() == b.Message() <==> a == b
  {
    if a != b {
      MessageLength(a);
      MessageLength(b);
    }
  }

  lemma MessageLength(e: ValidationError)
    ensures |e.Message()| == match e
      case InvalidDateFormat => 35
      case StartAfterEnd => 34
      case StartInFuture => 30
      case InvalidMetric => 57
      case InvalidFilter => 106
      case InvalidCalculation => 66
      case InvalidOutput => 49
  {
  }

  const OutputModes: set<string> := {"csv", "plot"}

  /** `_validate_dates`: both strings must parse (start first), the start
      must not come after the end, and the start, read as midnight, must not
      come after `now`. */
  function ValidateDates(startDate: string, endDate: string, now: DateTime): Outcome<ValidationError>
  {
    match (ParseDate(startDate), ParseDate(endDate))
    case (Some(s), Some(e)) =>
      if DateTimeBefore(Midnight(e), Midnight(s)) then Fail(StartAfterEnd)
      else if DateTimeBefore(now, Midnight(s)) then Fail(StartInFuture)
      else Pass
    case _ => Fail(InvalidDateFormat)
  }

  function ValidateMetric(metric: string): Outcome<ValidationError> {
    if metric in Metrics then Pass else Fail(InvalidMetric)
  }

  function ValidateFilter(weekdayFilter: string): Outcome<ValidationError> {
    if weekdayFilter in Weekdays then Pass else Fail(InvalidFilter)
  }

  function ValidateCalculation(calculation: string): Outcome<ValidationError> {
    if IsCalculationValue(calculation) then Pass else Fail(InvalidCalculation)
  }

  function ValidateOutput(output: string): Outcome<ValidationError> {
    if output in OutputModes then Pass else Fail(InvalidOutput)
  }

  /** `validate_input`: the five checks in order, stopping at the first failure. */
  function ValidateInput(args: Args, now: DateTime): (r: Outcome<ValidationError>)
    ensures r.Fail? ==> (r.error in {InvalidDateFormat, StartAfterEnd, StartInFuture}
                         <==> ValidateDates(args.startDate, args.endDate, now).Fail?)
  {
    var checks := [
      ValidateDates(args.startDate, args.endDate, now),
      ValidateMetric(args.metric),
      ValidateFilter(args.filter),
      ValidateCalculation(args.calculation),
      ValidateOutput(args.output)];
    FirstFailure(checks)
  }

  /** The first failing outcome of a sequence of checks run in order. */
  function FirstFailure(checks: seq<Outcome<ValidationError>>): (r: Outcome<ValidationError>)
    ensures r.Pass? <==> forall i :: 0 <= i < |checks| ==> checks[i].Pass?
    ensures r.Fail? ==> exists i :: 0 <= i < |checks| && checks[i] == r
                          && forall j :: 0 <= j < i ==> checks[j].Pass?
  {
    if checks == [] then Pass
    else if checks[0].Fail? then checks[0]
    else FirstFailure(checks[1..])
  }

  /** The request the validator accepts, stated on calendar days: both
      dates exist, start <= end, start <= today (whatever the time of day),
      and the four names belong to their tables. */
  predicate Acceptable(args: Args, today: Date)
    requires ValidDate(today)
  {
    && ParseDate(args.startDate).Some?
    && ParseDate(args.endDate).Some?
    && Ordinal(ParseDate(args.startDate).value) <= Ordinal(ParseDate(args.endDate).value)
    && Ordinal(ParseDate(args.startDate).value) <= Ordinal(today)
    && args.metric in Metrics
    && args.filter in Weekdays
    && CalculationFromValue(args.calculation).Some?
    && args.output in OutputModes
  }

  /** Validation passes exactly for the acceptable requests. */
  lemma ValidateInputAcceptsExactly(args: Args, now: DateTime)
    requires ValidDateTime(now)
    ensures ValidateInput(args, now).Pass? <==> Acceptable(args, now.date)
  {
    var s, e := ParseDate(args.startDate), ParseDate(args.endDate);
    if s.Some? && e.Some? {
      OrdinalOrder(e.value, s.value);
      OrdinalOrder(now.date, s.value);
      MidnightAfter(s.value, now);
    }
    CalculationRoundTrip(Average, args.calculation);
    var checks := [
      ValidateDates(args.startDate, args.endDate, now),
      ValidateMetric(args.metric),
      ValidateFilter(args.filter),
      ValidateCalculation(args.calculation),
      ValidateOutput(args.output)];
    assert ValidateInput(args, now) == FirstFailure(checks);
    assert ValidateDates(args.startDate, args.endDate, now).Pass? <==>
      && s.Some? && e.Some?
      && Ordinal(s.value) <= Ordinal(e.value)
      && Ordinal(s.value) <= Ordinal(now.date);
    assert (forall i :: 0 <= i < |checks| ==> checks[i].Pass?) <==>
      checks[0].Pass? && checks[1].Pass? && checks[2].Pass? && checks[3].Pass? && checks[4].Pass?;
  }

  /** The inverted-range error is reported exactly when the end is an
      earlier calendar day than the start, whatever the other fields hold;
      two spellings of the same day ("2021-1-5", "2021-01-05") never are. */
  lemma InvertedRangeDominates(args: Args, now: DateTime)
    requires ParseDate(args.startDate).Some? && ParseDate(args.endDate).Some?
    ensures ValidateInput(args, now) == Fail(StartAfterEnd)
            <==> Ordinal(ParseDate(args.endDate).value) < Ordinal(ParseDate(args.startDate).value)
  {
    var s, e := ParseDate(args.startDate).value, ParseDate(args.endDate).value;
    OrdinalOrder(e, s);
    var checks := [
      ValidateDates(args.startDate, args.endDate, now),
      ValidateMetric(args.metric),
      ValidateFilter(args.filter),
      ValidateCalculation(args.calculation),
      ValidateOutput(args.output)];
    assert ValidateInput(args, now) == FirstFailure(checks);
  }

  /** Only the start is compared with now, at the granularity of days: a
      start of today passes at any time of day, a start of tomorrow fails,
      and an end date in the future is allowed. */
  lemma StartComparedWithToday(startDate: string, endDate: string, now: DateTime)
    requires ValidDateTime(now)
    requires ParseDate(startDate).Some? && ParseDate(endDate).Some?
    requires Ordinal(ParseDate(startDate).value) <= Ordinal(ParseDate(endDate).value)
    ensures ValidateDates(startDate, endDate, now).Pass?
            <==> Ordinal(ParseDate(startDate).value) <= Ordinal(now.date)
  {
    var s, e := ParseDate(startDate).value, ParseDate(endDate).value;
    OrdinalOrder(e, s);
    OrdinalOrder(now.date, s);
    MidnightAfter(s, now);
  }

  /** A date that does not parse gives the format error, whatever the
      other fields hold, and that error is given for nothing else. */
  lemma DateFormatError(args: Args, now: DateTime)
    ensures ValidateInput(args, now) == Fail(InvalidDateFormat)
            <==> ParseDate(args.startDate).None? || ParseDate(args.endDate).None?
  {
    var checks := [
      ValidateDates(args.startDate, args.endDate, now),
      ValidateMetric(args.metric),
      ValidateFilter(args.filter),
      ValidateCalculation(args.calculation),
      ValidateOutput(args.output)];
    assert ValidateInput(args, now) == FirstFailure(checks);
  }

  /** Two parsed dates in order give the future-start error exactly when the
      start, read as midnight, is after `now`, that is, when it is a later
      calendar day than today. */
  lemma FutureStartError(args: Args, now: DateTime)
    requires ValidDateTime(now)
    ensures ValidateInput(args, now) == Fail(StartInFuture)
            <==> && ParseDate(args.startDate).Some? && ParseDate(args.endDate).Some?
                 && Ordinal(ParseDate(args.startDate).value) <= Ordinal(ParseDate(args.endDate).value)
                 && Ordinal(now.date) < Ordinal(ParseDate(args.startDate).value)
  {
    var checks := [
      ValidateDates(args.startDate, args.endDate, now),
      ValidateMetric(args.metric),
      ValidateFilter(args.filter),
      ValidateCalculation(args.calculation),
      ValidateOutput(args.output)];
    assert ValidateInput(args, now) == FirstFailure(checks);
    var s, e := ParseDate(args.startDate), ParseDate(args.endDate);
    if s.Some? && e.Some? {
      OrdinalOrder(e.value, s.value);
      OrdinalOrder(now.date, s.value);
      MidnightAfter(s.value, now);
    }
  }

  /** The checks run in order: each error implies that every earlier check passed. */
  lemma ChecksRunInOrder(args: Args, now: DateTime)
    ensures ValidateInput(args, now) == Fail(InvalidMetric)
            ==> ValidateDates(args.startDate, args.endDate, now).Pass? && args.metric !in Metrics
    ensures ValidateInput(args, now) == Fail(InvalidFilter)
            ==> ValidateDates(args.startDate, args.endDate, now).Pass? && args.metric in Metrics
                && args.filter !in Weekdays
    ensures ValidateInput(args, now) == Fail(InvalidCalculation)
            ==> ValidateDates(args.startDate, args.endDate, now).Pass? && args.metric in Metrics
                && args.filter in Weekdays && !IsCalculationValue(args.calculation)
    ensures ValidateInput(args, now) == Fail(InvalidOutput)
            ==> ValidateDates(args.startDate, args.endDate, now).Pass? && args.metric in Metrics
                && args.filter in Weekdays && IsCalculationValue(args.calculation)
                && args.output !in OutputModes
  {
    var checks := [
      ValidateDates(args.startDate, args.endDate, now),
      ValidateMetric(args.metric),
      ValidateFilter(args.filter),
      ValidateCalculation(args.calculation),
      ValidateOutput(args.output)];
    var r := FirstFailure(checks);
    assert ValidateInput(args, now) == r;
    CalculationRoundTrip(Average, args.calculation);
    if r.Fail? {
      var i :| 0 <= i < |checks| && checks[i] == r && forall j :: 0 <= j < i ==> checks[j].Pass?;
      assert r.error == InvalidMetric ==> i == 1;
      assert r.error == InvalidFilter ==> i == 2;
      assert r.error == InvalidCalculation ==> i == 3;
      assert r.error == InvalidOutput ==> i == 4;
      assert i > 0 ==> checks[0].Pass?;
      assert i > 1 ==> checks[1].Pass? && args.metric in Metrics;
      assert i > 2 ==> checks[2].Pass? && args.filter in Weekdays;
      assert i > 3 ==> checks[3].Pass? && IsCalculationValue(args.calculation);
    }
  }
}
