/** The observation table as the analyzer sees it once `read_csv` has
    parsed a daily file: an ordered sequence of records. Also what pandas
    does with it that the analyzer relies on: concatenating tables, and
    grouping by station, whose groups come out in ascending station order
    and keep the records' own order inside each group. */
module Dataset {
  import opened Statistics

  /** One observation row: `station_id`, `metric` and `value`. */
  datatype Record = Record(stationId: string, metric: string, value: real)

  /** `pd.concat`: the tables one after the other, in the given order. */
  function Concat(tables: seq<seq<Record>>): (r: seq<Record>)
    ensures |r| == TotalRows(tables)
  {
    if tables == [] then [] else tables[0] + Concat(tables[1..])
  }

  function TotalRows(tables: seq<seq<Record>>): nat {
    if tables == [] then 0 else |tables[0]| + TotalRows(tables[1..])
  }

  /** Concatenation keeps every table whole and in place: the rows of table
      `k` start right after the rows of the tables before it. */
  lemma {:induction false} ConcatLayout(tables: seq<seq<Record>>, k: int)
    requires 0 <= k < |tables|
    ensures TotalRows(tables[..k]) + |tables[k]| <= |Concat(tables)|
    ensures Concat(tables)[TotalRows(tables[..k])..TotalRows(tables[..k]) + |tables[k]|] == tables[k]
  {
    if k > 0 {
      ConcatLayout(tables[1..], k - 1);
      assert tables[1..][..k - 1] == tables[..k][1..];
      assert tables[1..][k - 1] == tables[k];
    }
  }

  /** The elements satisfying `p`, in their original order (a boolean mask). */
  function Filter<T(!new)>(s: seq<T>, p: T -> bool): (r: seq<T>)
    ensures |r| <= |s|
    ensures forall x :: x in r <==> x in s && p(x)
  {
    if s == [] then []
    else if p(s[0]) then [s[0]] + Filter(s[1..], p)
    else Filter(s[1..], p)
  }

  /** The mask keeps every satisfying element as often as it occurs and drops
      every other one. */
  lemma {:induction false} FilterCounts<T(!new)>(s: seq<T>, p: T -> bool)
    ensures forall x :: multiset(Filter(s, p))[x] == if p(x) then multiset(s)[x] else 0
  {
    if s != [] {
      FilterCounts(s[1..], p);
      assert s == [s[0]] + s[1..];
    }
  }

  /** Masking distributes over concatenation, so the kept elements stay in
      their original order. */
  lemma {:induction false} FilterAppend<T(!new)>(a: seq<T>, b: seq<T>, p: T -> bool)
    ensures Filter(a + b, p) == Filter(a, p) + Filter(b, p)
  {
    if a == [] {
      assert a + b == b;
    } else {
      assert (a + b)[1..] == a[1..] + b;
      FilterAppend(a[1..], b, p);
    }
  }

  /** Python's string order: code point by code point, a proper prefix first. */
  predicate StringLess(a: string, b: string) {
    |b| > 0 && (|a| == 0 || a[0] < b[0] || (a[0] == b[0] && StringLess(a[1..], b[1..])))
  }

  /** The order is strict and total: exactly one of `a < b`, `a == b`, `b < a`. */
  lemma {:induction false} StringLessTrichotomy(a: string, b: string)
    ensures !StringLess(a, a)
    ensures !(StringLess(a, b) && StringLess(b, a))
    ensures a != b ==> StringLess(a, b) || StringLess(b, a)
  {
    if |a| > 0 {
      StringLessTrichotomy(a[1..], a[1..]);
    }
    if |a| > 0 && |b| > 0 {
      StringLessTrichotomy(a[1..], b[1..]);
      if a[0] == b[0] && a != b {
        assert a == [a[0]] + a[1..] && b == [b[0]] + b[1..];
      }
    }
  }

  lemma {:induction false} StringLessTransitive(a: string, b: string, c: string)
    requires StringLess(a, b) && StringLess(b, c)
    ensures StringLess(a, c)
  {
    if |a| > 0 && a[0] == b[0] && b[0] == c[0] {
      StringLessTransitive(a[1..], b[1..], c[1..]);
    }
  }

  predicate StrictlyAscending(ks: seq<string>) {
    forall i, j :: 0 <= i < j < |ks| ==> StringLess(ks[i], ks[j])
  }

  /** `k` added to an ascending key list, unless it is already there. */
  function InsertKey(k: string, ks: seq<string>): (r: seq<string>)
    requires StrictlyAscending(ks)
    ensures StrictlyAscending(r)
    ensures forall v :: v in r <==> v == k || v in ks
  {
    if ks == [] then [k]
    else if k == ks[0] then ks
    else if StringLess(k, ks[0]) then
      forall j | 0 <= j < |ks| ensures StringLess(k, ks[j]) {
        if j > 0 { StringLessTransitive(k, ks[0], ks[j]); }
      }
      [k] + ks
    else
      StringLessTrichotomy(k, ks[0]);
      var rest := InsertKey(k, ks[1..]);
      forall i | 0 <= i < |rest| ensures StringLess(ks[0], rest[i]) {
        assert rest[i] in rest;
        if rest[i] != k {
          var j :| 0 <= j < |ks[1..]| && ks[1..][j] == rest[i];
          assert ks[j + 1] == rest[i];
        }
      }
      [ks[0]] + rest
  }

  /** The station ids that occur in the table. */
  function Stations(d: seq<Record>): set<string> {
    if d == [] then {} else {d[0].stationId} + Stations(d[1..])
  }

  /** A station occurs in the table exactly when some record carries its id. */
  lemma {:induction false} StationsOccur(d: seq<Record>, s: string)
    ensures s in Stations(d) <==> exists i :: 0 <= i < |d| && d[i].stationId == s
  {
    if d != [] {
      StationsOccur(d[1..], s);
      if s in Stations(d[1..]) {
        var j :| 0 <= j < |d[1..]| && d[1..][j].stationId == s;
        assert d[j + 1].stationId == s;
      }
      if s != d[0].stationId && exists i :: 0 <= i < |d| && d[i].stationId == s {
        var i :| 0 <= i < |d| && d[i].stationId == s;
        assert d[1..][i - 1].stationId == s;
      }
    }
  }

  /** The group keys of `groupby('station_id')`: each station once, in
      ascending order. */
  function GroupKeys(d: seq<Record>): (ks: seq<string>)
    ensures StrictlyAscending(ks)
    ensures forall s :: s in ks <==> s in Stations(d)
  {
    if d == [] then [] else InsertKey(d[0].stationId, GroupKeys(d[1..]))
  }

  /** Keys in strictly ascending order are pairwise distinct. */
  lemma AscendingKeysDistinct(ks: seq<string>)
    requires StrictlyAscending(ks)
    ensures forall i, j :: 0 <= i < j < |ks| ==> ks[i] != ks[j]
  {
    forall i, j | 0 <= i < j < |ks| ensures ks[i] != ks[j] {
      StringLessTrichotomy(ks[i], ks[j]);
    }
  }

  /** The `value` column. */
  function Values(d: seq<Record>): (r: seq<real>)
    ensures |r| == |d| && forall i :: 0 <= i < |d| ==> r[i] == d[i].value
  {
    if d == [] then [] else [d[0].value] + Values(d[1..])
  }

  /** The values of one station's group, in table order. */
  function StationValues(d: seq<Record>, s: string): seq<real> {
    if d == [] then []
    else if d[0].stationId == s then [d[0].value] + StationValues(d[1..], s)
    else StationValues(d[1..], s)
  }

  /** A station that occurs in the table has a non-empty group, and a station
      that does not has none. */
  lemma {:induction false} StationValuesNonEmpty(d: seq<Record>, s: string)
    ensures |StationValues(d, s)| > 0 <==> s in Stations(d)
  {
    if d != [] {
      StationValuesNonEmpty(d[1..], s);
    }
  }

  /** When every record of station `s` holds `v`, so does its whole group. */
  lemma {:induction false} StationValuesOfConstant(d: seq<Record>, s: string, v: real)
    requires forall j :: 0 <= j < |d| && d[j].stationId == s ==> d[j].value == v
    ensures forall k :: 0 <= k < |StationValues(d, s)| ==> StationValues(d, s)[k] == v
  {
    if d != [] {
      StationValuesOfConstant(d[1..], s, v);
    }
  }

  /** The table without the records of station `s`. */
  function Without(d: seq<Record>, s: string): seq<Record> {
    if d == [] then []
    else if d[0].stationId == s then Without(d[1..], s)
    else [d[0]] + Without(d[1..], s)
  }

  /** Removing station `s` removes exactly its id and leaves every other
      station's group unchanged. */
  lemma {:induction false} WithoutStation(d: seq<Record>, s: string, t: string)
    ensures Stations(Without(d, s)) == Stations(d) - {s}
    ensures t != s ==> StationValues(Without(d, s), t) == StationValues(d, t)
  {
    if d != [] {
      WithoutStation(d[1..], s, t);
      if d[0].stationId != s {
        assert ([d[0]] + Without(d[1..], s))[1..] == Without(d[1..], s);
      }
    }
  }

  /** One station's group and the rest of the table share out the table's
      deviation from any value `c`. */
  lemma {:induction false} GroupSplit(d: seq<Record>, s: string, c: real)
    ensures Deviation(Values(d), c) == Deviation(StationValues(d, s), c) + Deviation(Values(Without(d, s)), c)
  {
    if d != [] {
      GroupSplit(d[1..], s, c);
      assert Values(d)[1..] == Values(d[1..]);
      if d[0].stationId != s {
        assert Values([d[0]] + Without(d[1..], s))[1..] == Values(Without(d[1..], s));
      }
    }
  }

  /** Station `t`'s values average to `c`. */
  predicate GroupAverages(d: seq<Record>, t: string, c: real) {
    Deviation(StationValues(d, t), c) == 0.0
  }

  /** Removing one station leaves every other station's group as it was. */
  lemma {:induction false} WithoutKeepsAverages(d: seq<Record>, s: string, c: real)
    requires forall t :: t in Stations(d) ==> GroupAverages(d, t, c)
    ensures forall t :: t in Stations(Without(d, s)) ==> GroupAverages(Without(d, s), t, c)
  {
    forall t | t in Stations(Without(d, s)) ensures GroupAverages(Without(d, s), t, c) {
      WithoutStation(d, s, t);
    }
  }

  /** When every station's values average to `c`, so do all the values. */
  lemma {:induction false} UniformGroupMeans(d: seq<Record>, c: real)
    requires forall t :: t in Stations(d) ==> GroupAverages(d, t, c)
    ensures Deviation(Values(d), c) == 0.0
    decreases |Stations(d)|
  {
    if d != [] {
      var s := d[0].stationId;
      var rest := Without(d, s);
      WithoutKeepsAverages(d, s, c);
      WithoutStation(d, s, s);
      assert s in Stations(d);
      assert Stations(rest) < Stations(d);
      UniformGroupMeans(rest, c);
      GroupSplit(d, s, c);
    }
  }
}
