/** The fixed enumerations shared by the validator and the analyzer:
    the four calculations, the metric names with their observation codes,
    and the weekday filter names with their day numbers (Monday = 0). */
module HelperTypes {
  import opened Wrappers

  /** The `CalculationType` enumeration. */
  datatype CalculationType = Average | Min | Median | DiffAvg {
    /** The member's string value, as used on the command line and in file names. */
    function Value(): string {
      match this
      case Average => "average"
      case Min => "min"
      case Median => "median"
      case DiffAvg => "diff_avg"
    }
  }

  /** All members, in declaration order (what iterating the enumeration yields). */
  const AllCalculations: seq<CalculationType> := [Average, Min, Median, DiffAvg]

  /** `CalculationType(s)`: the member whose value is `s`, or `None` where
      Python raises `ValueError`. */
  function CalculationFromValue(s: string): (r: Option<CalculationType>)
    ensures r.Some? ==> r.value.Value() == s
    ensures r.None? <==> forall c: CalculationType :: c.Value() != s
  {
    if s == "average" then Some(Average)
    else if s == "min" then Some(Min)
    else if s == "median" then Some(Median)
    else if s == "diff_avg" then Some(DiffAvg)
    else None
  }

  /** Whether `s` is one of the four calculation values. */
  predicate IsCalculationValue(s: string) {
    exists i :: 0 <= i < |AllCalculations| && AllCalculations[i].Value() == s
  }

  /** `METRICS`: metric name to observation code. */
  const Metrics: map<string, string> := map["precipitation" := "PRCP", "temperature" := "TAVG"]

  /** The metric code that the analyzer rescales (`METRICS['temperature']`). */
  const TemperatureCode: string := "TAVG"

  /** `WEEKDAYS`: filter name to weekday number, `None` meaning no filter. */
  const Weekdays: map<string, Option<int>> := map[
    "none" := None,
    "mondays" := Some(0),
    "tuesdays" := Some(1),
    "wednesdays" := Some(2),
    "thursdays" := Some(3),
    "fridays" := Some(4),
    "saturdays" := Some(5),
    "sundays" := Some(6)
  ]

  /** The seven day filter names, Monday first. */
  const DayNames: seq<string> :=
    ["mondays", "tuesdays", "wednesdays", "thursdays", "fridays", "saturdays", "sundays"]

  /** The enumeration has exactly four members, with pairwise distinct values. */
  lemma CalculationValuesDistinct()
    ensures |AllCalculations| == 4
    ensures forall c: CalculationType :: c in AllCalculations
    ensures forall i, j :: 0 <= i < j < |AllCalculations| ==>
      AllCalculations[i].Value() != AllCalculations[j].Value()
  {
    forall c: CalculationType ensures c in AllCalculations {
      match c
      case Average => assert AllCalculations[0] == c;
      case Min => assert AllCalculations[1] == c;
      case Median => assert AllCalculations[2] == c;
      case DiffAvg => assert AllCalculations[3] == c;
    }
  }

  /** Looking a member up by its own value gives back that member; a string
      that is no member's value (such as "mean") has no member. */
  lemma CalculationRoundTrip(c: CalculationType, s: string)
    ensures CalculationFromValue(c.Value()) == Some(c)
    ensures IsCalculationValue(s) <==> CalculationFromValue(s).Some?
    ensures CalculationFromValue("mean") == None
  {
    if CalculationFromValue(s).Some? {
      match CalculationFromValue(s).value
      case Average => assert AllCalculations[0].Value() == s;
      case Min => assert AllCalculations[1].Value() == s;
      case Median => assert AllCalculations[2].Value() == s;
      case DiffAvg => assert AllCalculations[3].Value() == s;
    }
  }

  /** `METRICS` has exactly the two entries, and their codes differ. */
  lemma MetricsTable()
    ensures Metrics.Keys == {"precipitation", "temperature"}
    ensures Metrics["precipitation"] == "PRCP" && Metrics["temperature"] == TemperatureCode
    ensures Metrics["precipitation"] != Metrics["temperature"]
  {
  }

  /** `WEEKDAYS` maps "none" to no filter and the seven day names, Monday
      first, injectively onto 0..6; nothing else is a key. */
  lemma WeekdaysTable()
    ensures Weekdays.Keys == {"none"} + set i | 0 <= i < |DayNames| :: DayNames[i]
    ensures Weekdays["none"] == None
    ensures forall i :: 0 <= i < |DayNames| ==> Weekdays[DayNames[i]] == Some(i)
    ensures forall k1, k2 :: k1 in Weekdays && k2 in Weekdays && k1 != k2 ==> Weekdays[k1] != Weekdays[k2]
  {
    var names := set i | 0 <= i < |DayNames| :: DayNames[i];
    assert names == {"mondays", "tuesdays", "wednesdays", "thursdays", "fridays", "saturdays", "sundays"} by {
      assert DayNames[0] in names && DayNames[1] in names && DayNames[2] in names && DayNames[3] in names;
      assert DayNames[4] in names && DayNames[5] in names && DayNames[6] in names;
    }
  }
}
