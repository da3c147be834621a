/**
 * `add_weekday_features`: derive the day name of every row, from the index or from a
 * datetime column, store it in the caller's frame as column `weekday`, and return the
 * frame with that column one-hot encoded as `weekday_<DayName>` indicator columns.
 */
module Features {
  import opened Results
  import opened Grouping
  import opened Tables
  import opened Calendar

  const DayNames: seq<string> := ["Monday", "Tuesday", "Wednesday", "Thursday", "Friday", "Saturday", "Sunday"]

  /** The day names in lexicographic order, the order in which `get_dummies` lays out its columns. */
  const SortedDayNames: seq<string> := ["Friday", "Monday", "Saturday", "Sunday", "Thursday", "Tuesday", "Wednesday"]

  const IndicatorPrefix: string := "weekday_"

  const IndexMessage: string := "'Index' object has no attribute 'day_name'"
  const AccessorMessage: string := "Can only use .dt accessor with datetimelike values"

  /** `Timestamp.day_name()` */
  function DayName(t: int): (n: string)
    ensures n in DayNames
  {
    DayNames[DayOfWeek(t)]
  }

  /** Strict lexicographic order on strings. */
  predicate LexLess(a: string, b: string)
  {
    if a == [] then b != []
    else b != [] && (a[0] < b[0] || (a[0] == b[0] && LexLess(a[1..], b[1..])))
  }

  /** `a` comes before `b` as soon as they first differ, at position `k`, with a smaller character in `a`. */
  lemma {:induction false} LexLessAt(a: string, b: string, k: nat)
    requires k < |a| && k < |b| && a[..k] == b[..k] && a[k] < b[k]
    ensures LexLess(a, b)
  {
    if k > 0 {
      assert a[0] == a[..k][0] == b[..k][0] == b[0];
      assert a[1..][..k - 1] == a[..k][1..] == b[..k][1..] == b[1..][..k - 1];
      LexLessAt(a[1..], b[1..], k - 1);
    }
  }

  /**
   * `SortedDayNames` is `DayNames` sorted: the same seven names, in strictly increasing
   * lexicographic order (so each once).
   */
  lemma SortedDayNamesAreSorted()
    ensures |SortedDayNames| == |DayNames|
    ensures forall n :: n in SortedDayNames <==> n in DayNames
    ensures forall i :: 0 <= i < |SortedDayNames| - 1 ==> LexLess(SortedDayNames[i], SortedDayNames[i + 1])
  {
    LexLessAt("Friday", "Monday", 0);
    LexLessAt("Monday", "Saturday", 0);
    LexLessAt("Saturday", "Sunday", 1);
    LexLessAt("Sunday", "Thursday", 0);
    LexLessAt("Thursday", "Tuesday", 1);
    LexLessAt("Tuesday", "Wednesday", 0);
  }

  /** `.day_name()` on an index or a `.dt` column: an error unless every value is a timestamp. */
  function DayNamesOf(vals: seq<Value>, message: string): (r: Result<seq<Value>>)
    ensures r.Success? <==> forall i :: 0 <= i < |vals| ==> vals[i].Time?
    ensures r.Success? ==> |r.value| == |vals|
    ensures r.Success? ==> forall i :: 0 <= i < |vals| ==> r.value[i] == Str(DayName(vals[i].ticks))
    ensures r.Failure? ==> r.error == AttributeError(message)
  {
    if forall i :: 0 <= i < |vals| ==> vals[i].Time? then
      Success(seq(|vals|, i requires 0 <= i < |vals| && vals[i].Time? => Str(DayName(vals[i].ticks))))
    else
      Failure(AttributeError(message))
  }

  /** The values the day names are taken from: the index when `dtcol` is None, else column `dtcol`. */
  function DateSource(t: Table, dtcol: Option<string>): (r: seq<Value>)
    requires WellFormed(t) && (dtcol.Some? ==> dtcol.value in t.columns)
    ensures |r| == |t.rows|
  {
    if dtcol.None? then t.index else Column(t, dtcol.value)
  }

  /** The `weekday` column the function assigns, or the exception raised computing it. */
  function WeekdayColumn(t: Table, dtcol: Option<string>): (r: Result<seq<Value>>)
    requires WellFormed(t)
    ensures r.Success? ==> |r.value| == |t.rows| && forall i :: 0 <= i < |t.rows| ==> r.value[i].Str? && r.value[i].s in DayNames
    ensures r.Failure? ==> r.error == (if dtcol.None? then AttributeError(IndexMessage)
                                       else if dtcol.value !in t.columns then KeyError(dtcol.value)
                                       else AttributeError(AccessorMessage))
  {
    match dtcol
    case None => DayNamesOf(t.index, IndexMessage)
    case Some(c) => if c in t.columns then DayNamesOf(Column(t, c), AccessorMessage) else Failure(KeyError(c))
  }

  function IndicatorName(n: string): string
  {
    IndicatorPrefix + n
  }

  /** The frame has no column named like an indicator, so the encoded frame's labels stay distinct. */
  predicate NoIndicatorColumns(t: Table)
  {
    forall n :: n in DayNames ==> IndicatorName(n) !in t.columns
  }

  /** The names among `names` that occur as values in `vals`, in the order of `names`. */
  function Occurring(names: seq<string>, vals: seq<Value>): (r: seq<string>)
    ensures forall n :: n in r <==> n in names && Str(n) in vals
    ensures IsSubsequence(r, names)
    ensures Distinct(names) ==> Distinct(r)
  {
    if names == [] then []
    else if Str(names[0]) in vals then [names[0]] + Occurring(names[1..], vals)
    else
      var rest := Occurring(names[1..], vals);
      SubsequenceExtends(rest, names);
      rest
  }

  function Indicators(names: seq<string>): (r: seq<string>)
    ensures |r| == |names|
    ensures forall i :: 0 <= i < |names| ==> r[i] == IndicatorName(names[i])
  {
    seq(|names|, i requires 0 <= i < |names| => IndicatorName(names[i]))
  }

  lemma IndicatorNameInjective(a: string, b: string)
    ensures IndicatorName(a) == IndicatorName(b) ==> a == b
    ensures |IndicatorName(a)| >= |IndicatorPrefix| && IndicatorName(a)[|IndicatorPrefix|..] == a
  {
    if IndicatorName(a) == IndicatorName(b) {
      assert a == IndicatorName(a)[|IndicatorPrefix|..];
    }
  }

  lemma IndicatorNamesInjective()
    ensures forall a, b :: IndicatorName(a) == IndicatorName(b) ==> a == b
  {
    forall a, b ensures IndicatorName(a) == IndicatorName(b) ==> a == b {
      IndicatorNameInjective(a, b);
    }
  }

  /** The indicator cells of one row whose `weekday` value is `day`: true exactly under that day's name. */
  function IndicatorCells(day: Value, names: seq<string>): (m: map<string, Value>)
    ensures m.Keys == Labels(Indicators(names))
    ensures forall n :: n in names ==> m[IndicatorName(n)] == Bool(day == Str(n))
  {
    IndicatorNamesInjective();
    map n | n in names :: IndicatorName(n) := Bool(day == Str(n))
  }

  /** Indicator labels of distinct day names are distinct and clash with no other column. */
  lemma IndicatorLabelsDistinct(others: seq<string>, names: seq<string>)
    requires Distinct(others) && Distinct(names)
    requires forall n :: n in names ==> n in DayNames && IndicatorName(n) !in others
    ensures Distinct(others + Indicators(names))
  {
    IndicatorNamesInjective();
  }

  /** One row of the encoded frame: the row without `weekday`, plus its indicator cells. */
  function EncodedRow(row: Row, names: seq<string>): Row
    requires "weekday" in row
  {
    RestrictRow(row, ["weekday"]) + IndicatorCells(row["weekday"], names)
  }

  /**
   * `pd.get_dummies(df, columns=["weekday"])` on a frame whose `weekday` column holds day
   * names: the other columns stay in place and one boolean column per day name that
   * occurs, in sorted order, is appended.
   */
  function EncodeWeekday(t: Table): (r: Table)
    requires WellFormed(t) && "weekday" in t.columns && NoIndicatorColumns(t)
    ensures WellFormed(r)
  {
    var names := Occurring(SortedDayNames, Column(t, "weekday"));
    var rest := Without(t.columns, ["weekday"]);
    IndicatorLabelsDistinct(rest, names);
    var columns := rest + Indicators(names);
    assert Labels(columns) == Labels(rest) + Labels(Indicators(names));
    assert forall i :: 0 <= i < |t.rows| ==> RestrictRow(t.rows[i], ["weekday"]).Keys == Labels(rest);
    Table(t.index, columns, seq(|t.rows|, i requires 0 <= i < |t.rows| => EncodedRow(t.rows[i], names)))
  }

  /** What `add_weekday_features` returns, or the exception it raises. */
  function WeekdayFeatures(t: Table, dtcol: Option<string>): (r: Result<Table>)
    requires WellFormed(t) && NoIndicatorColumns(t)
    ensures r.Success? <==> WeekdayColumn(t, dtcol).Success?
    ensures r.Failure? ==> r.error == WeekdayColumn(t, dtcol).error
    ensures r.Success? ==> WellFormed(r.value) && r.value.index == t.index && |r.value.rows| == |t.rows|
  {
    match WeekdayColumn(t, dtcol)
    case Failure(e) => Failure(e)
    case Success(names) => Success(EncodeWeekday(SetColumn(t, "weekday", names)))
  }

  /**
   * The exceptions: without `dtcol`, AttributeError unless the index is all timestamps;
   * with it, KeyError for a missing column and AttributeError unless it is all timestamps.
   */
  lemma WeekdayFeaturesErrors(t: Table, dtcol: Option<string>)
    requires WellFormed(t) && NoIndicatorColumns(t)
    ensures dtcol.None? ==>
      (WeekdayFeatures(t, dtcol).Failure? <==> exists i :: 0 <= i < |t.index| && !t.index[i].Time?)
    ensures dtcol.None? && WeekdayFeatures(t, dtcol).Failure? ==>
      WeekdayFeatures(t, dtcol).error == AttributeError(IndexMessage)
    ensures dtcol.Some? && dtcol.value !in t.columns ==>
      WeekdayFeatures(t, dtcol) == Failure(KeyError(dtcol.value))
    ensures dtcol.Some? && dtcol.value in t.columns ==>
      (WeekdayFeatures(t, dtcol).Failure? <==> exists i :: 0 <= i < |t.rows| && !t.rows[i][dtcol.value].Time?)
    ensures dtcol.Some? && dtcol.value in t.columns && WeekdayFeatures(t, dtcol).Failure? ==>
      WeekdayFeatures(t, dtcol).error == AttributeError(AccessorMessage)
  {
  }

  /** Success means the date source exists and holds only timestamps. */
  lemma WeekdayColumnNames(t: Table, dtcol: Option<string>)
    requires WellFormed(t) && WeekdayColumn(t, dtcol).Success?
    ensures dtcol.Some? ==> dtcol.value in t.columns
    ensures var dates, names := DateSource(t, dtcol), WeekdayColumn(t, dtcol).value;
      && |names| == |dates| == |t.rows|
      && forall i :: 0 <= i < |dates| ==> dates[i].Time? && names[i] == Str(DayName(dates[i].ticks))
  {
  }

  lemma {:induction false} WithoutIgnoresExcluded(cols: seq<string>, c: string)
    ensures Without(cols + [c], [c]) == Without(cols, [c])
  {
    if cols == [] {
      assert Without([c], [c]) == Without([], [c]);
    } else {
      assert (cols + [c])[1..] == cols[1..] + [c];
      WithoutIgnoresExcluded(cols[1..], c);
    }
  }

  /**
   * The encoded frame has no `weekday` column: the input's other columns come first, in
   * their order, followed by the indicators of the day names that occur, in sorted order.
   */
  lemma WeekdayColumnReplaced(t: Table, dtcol: Option<string>)
    requires WellFormed(t) && NoIndicatorColumns(t) && WeekdayFeatures(t, dtcol).Success?
    ensures var out, names := WeekdayFeatures(t, dtcol).value, WeekdayColumn(t, dtcol).value;
      && "weekday" !in out.columns
      && out.columns == Without(t.columns, ["weekday"]) + Indicators(Occurring(SortedDayNames, names))
  {
    var names := WeekdayColumn(t, dtcol).value;
    var withWeekday := SetColumn(t, "weekday", names);
    if "weekday" !in t.columns {
      WithoutIgnoresExcluded(t.columns, "weekday");
    }
    assert Column(withWeekday, "weekday") == names;
    forall n | n in DayNames ensures IndicatorName(n) != "weekday" {
      assert |IndicatorName(n)| > |"weekday"|;
    }
  }

  /** Among labels that name no day's indicator, the indicator of day `n` is present exactly when `n` is listed. */
  lemma IndicatorMembership(others: seq<string>, listed: seq<string>, n: string)
    requires forall m :: m in DayNames ==> IndicatorName(m) !in others
    requires n in DayNames
    ensures IndicatorName(n) in others + Indicators(listed) <==> n in listed
  {
    IndicatorNamesInjective();
    if IndicatorName(n) in Indicators(listed) {
      var k :| 0 <= k < |listed| && Indicators(listed)[k] == IndicatorName(n);
      assert listed[k] == n;
    }
    if n in listed {
      var k :| 0 <= k < |listed| && listed[k] == n;
      assert Indicators(listed)[k] == IndicatorName(n);
    }
  }

  /** A day name occurs among the names derived from `dates` exactly when some date falls on that day. */
  lemma DayOccurs(names: seq<Value>, dates: seq<Value>, n: string)
    requires |names| == |dates|
    requires forall i :: 0 <= i < |dates| ==> dates[i].Time? && names[i] == Str(DayName(dates[i].ticks))
    ensures Str(n) in names <==> exists i :: 0 <= i < |dates| && dates[i].Time? && DayName(dates[i].ticks) == n
  {
    if Str(n) in names {
      var i :| 0 <= i < |names| && names[i] == Str(n);
      assert DayName(dates[i].ticks) == n;
    }
  }

  /**
   * An indicator column exists exactly for each day name that some row's date falls on,
   * and each appears once.
   */
  lemma IndicatorsForOccurringDays(t: Table, dtcol: Option<string>)
    requires WellFormed(t) && NoIndicatorColumns(t) && WeekdayFeatures(t, dtcol).Success?
    ensures dtcol.Some? ==> dtcol.value in t.columns
    ensures var out, dates := WeekdayFeatures(t, dtcol).value, DateSource(t, dtcol);
      && Distinct(out.columns)
      && forall n :: n in DayNames ==>
           (IndicatorName(n) in out.columns <==>
              exists i :: 0 <= i < |dates| && dates[i].Time? && DayName(dates[i].ticks) == n)
  {
    WeekdayColumnReplaced(t, dtcol);
    WeekdayColumnNames(t, dtcol);
    var out, dates, names := WeekdayFeatures(t, dtcol).value, DateSource(t, dtcol), WeekdayColumn(t, dtcol).value;
    var others := Without(t.columns, ["weekday"]);
    var occurring := Occurring(SortedDayNames, names);
    assert out.columns == others + Indicators(occurring);
    forall n | n in DayNames
      ensures IndicatorName(n) in out.columns <==>
        exists i :: 0 <= i < |dates| && dates[i].Time? && DayName(dates[i].ticks) == n
    {
      IndicatorMembership(others, occurring, n);
      assert n in SortedDayNames;
      DayOccurs(names, dates, n);
    }
  }

  /** A listed day's indicator cell is true exactly when the row's `weekday` is that day. */
  lemma EncodedRowIndicator(row: Row, listed: seq<string>, n: string)
    requires "weekday" in row && n in listed
    ensures IndicatorName(n) in EncodedRow(row, listed)
    ensures EncodedRow(row, listed)[IndicatorName(n)] == Bool(row["weekday"] == Str(n))
  {
    IndicatorNamesInjective();
    var k :| 0 <= k < |listed| && listed[k] == n;
    assert Indicators(listed)[k] == IndicatorName(n);
  }

  /** A cell outside `weekday` whose label names no day's indicator is kept. */
  lemma EncodedRowKeeps(row: Row, listed: seq<string>, c: string)
    requires "weekday" in row && c in row && c != "weekday"
    requires forall m :: m in listed ==> m in DayNames
    requires forall m :: m in DayNames ==> c != IndicatorName(m)
    ensures c in EncodedRow(row, listed) && EncodedRow(row, listed)[c] == row[c]
  {
    forall k | 0 <= k < |listed| ensures Indicators(listed)[k] != c {
      assert listed[k] in DayNames;
    }
  }

  /**
   * In an encoded row whose `weekday` is day `d`, the indicator of `d` is true and every
   * other day indicator present is false.
   */
  lemma EncodedRowDays(row: Row, listed: seq<string>, d: string)
    requires "weekday" in row && row["weekday"] == Str(d) && d in listed
    requires forall m :: m in DayNames ==> IndicatorName(m) !in row
    ensures IndicatorName(d) in EncodedRow(row, listed)
    ensures EncodedRow(row, listed)[IndicatorName(d)] == Bool(true)
    ensures forall n :: n in DayNames && IndicatorName(n) in EncodedRow(row, listed) ==>
              EncodedRow(row, listed)[IndicatorName(n)] == Bool(n == d)
  {
    EncodedRowIndicator(row, listed, d);
    forall n | n in DayNames && IndicatorName(n) in EncodedRow(row, listed)
      ensures EncodedRow(row, listed)[IndicatorName(n)] == Bool(n == d)
    {
      IndicatorNamesInjective();
      assert IndicatorName(n) in Indicators(listed);
      var k :| 0 <= k < |listed| && Indicators(listed)[k] == IndicatorName(n);
      assert listed[k] == n;
      EncodedRowIndicator(row, listed, n);
    }
  }

  /** `EncodeWeekday` on a frame whose `weekday` column holds the day names `days`, row by row. */
  lemma EncodeWeekdayDays(t: Table, days: seq<string>)
    requires WellFormed(t) && "weekday" in t.columns && NoIndicatorColumns(t)
    requires |days| == |t.rows|
    requires forall i :: 0 <= i < |t.rows| ==> days[i] in DayNames && t.rows[i]["weekday"] == Str(days[i])
    ensures var out := EncodeWeekday(t);
      forall i :: 0 <= i < |out.rows| ==>
        && IndicatorName(days[i]) in out.rows[i]
        && out.rows[i][IndicatorName(days[i])] == Bool(true)
        && forall n :: n in DayNames && IndicatorName(n) in out.rows[i] ==> out.rows[i][IndicatorName(n)] == Bool(n == days[i])
  {
    var occurring := Occurring(SortedDayNames, Column(t, "weekday"));
    forall i | 0 <= i < |t.rows|
      ensures var row := EncodedRow(t.rows[i], occurring);
        && IndicatorName(days[i]) in row && row[IndicatorName(days[i])] == Bool(true)
        && forall n :: n in DayNames && IndicatorName(n) in row ==> row[IndicatorName(n)] == Bool(n == days[i])
    {
      assert days[i] in SortedDayNames && Column(t, "weekday")[i] == Str(days[i]);
      assert t.rows[i].Keys == Labels(t.columns);
      EncodedRowDays(t.rows[i], occurring, days[i]);
    }
  }

  /**
   * In every row exactly one day indicator is true: the one named after the day of that
   * row's date; every other day indicator present is false.
   */
  lemma OneIndicatorPerRow(t: Table, dtcol: Option<string>)
    requires WellFormed(t) && NoIndicatorColumns(t) && WeekdayFeatures(t, dtcol).Success?
    ensures dtcol.Some? ==> dtcol.value in t.columns
    ensures var out, dates := WeekdayFeatures(t, dtcol).value, DateSource(t, dtcol);
      forall i :: 0 <= i < |out.rows| ==>
        && dates[i].Time?
        && IndicatorName(DayName(dates[i].ticks)) in out.rows[i]
        && out.rows[i][IndicatorName(DayName(dates[i].ticks))] == Bool(true)
        && forall n :: n in DayNames && IndicatorName(n) in out.rows[i] ==>
             out.rows[i][IndicatorName(n)] == Bool(n == DayName(dates[i].ticks))
  {
    WeekdayColumnNames(t, dtcol);
    var dates, names := DateSource(t, dtcol), WeekdayColumn(t, dtcol).value;
    var withWeekday := SetColumn(t, "weekday", names);
    var days := seq(|dates|, i requires 0 <= i < |dates| && dates[i].Time? => DayName(dates[i].ticks));
    forall m | m in DayNames ensures IndicatorName(m) != "weekday" {
      assert |IndicatorName(m)| > |"weekday"|;
    }
    EncodeWeekdayDays(withWeekday, days);
  }

  /** Row count, index and every cell outside the `weekday` column are kept. */
  lemma RowsAndColumnsKept(t: Table, dtcol: Option<string>)
    requires WellFormed(t) && NoIndicatorColumns(t) && WeekdayFeatures(t, dtcol).Success?
    ensures var out := WeekdayFeatures(t, dtcol).value;
      && out.index == t.index
      && |out.rows| == |t.rows|
      && forall i, c :: 0 <= i < |t.rows| && c in t.rows[i] && c != "weekday" ==>
           c in out.rows[i] && out.rows[i][c] == t.rows[i][c]
  {
    var names := WeekdayColumn(t, dtcol).value;
    var withWeekday := SetColumn(t, "weekday", names);
    var occurring := Occurring(SortedDayNames, Column(withWeekday, "weekday"));
    forall i, c | 0 <= i < |t.rows| && c in t.rows[i] && c != "weekday"
      ensures c in EncodeWeekday(withWeekday).rows[i]
      ensures EncodeWeekday(withWeekday).rows[i][c] == t.rows[i][c]
    {
      assert c in t.columns;
      EncodedRowKeeps(withWeekday.rows[i], occurring, c);
    }
  }

  /**
   * `add_weekday_features(df, dtcol)`: assigns `weekday` on the caller's frame in place,
   * then returns the encoded copy. When computing the day names raises, the caller's
   * frame is left as it was.
   */
  method AddWeekdayFeatures(df: DataFrame, dtcol: Option<string>) returns (r: Result<Table>)
    requires WellFormed(df.table) && NoIndicatorColumns(df.table)
    modifies df
    ensures r == WeekdayFeatures(old(df.table), dtcol)
    ensures r.Failure? ==> df.table == old(df.table)
    ensures r.Success? ==> df.table == SetColumn(old(df.table), "weekday", WeekdayColumn(old(df.table), dtcol).value)
  {
    var weekday := WeekdayColumn(df.table, dtcol);
    if weekday.Failure? {
      return Failure(weekday.error);
    }
    df.table := SetColumn(df.table, "weekday", weekday.value);
    r := Success(EncodeWeekday(df.table));
  }
}
