/**
 * `BatchCOVIDLogisticProphet`: validates the grouping columns and builds the holiday
 * calendar at construction; `Fit` splits the data by group key and trains one
 * logistic-growth forecaster per group.
 */
module Models {
  import opened Results
  import opened Grouping
  import opened Tables
  import opened Calendar
  import opened Forecaster

  /** The `group_cols` argument: a Python list of column names, or any value that is not a list. */
  datatype GroupColsArg = PyList(items: seq<string>) | NotAList

  const DefaultFloor: Value := Int(0)
  const DefaultCap: Value := Real(7.5 * 60.0 / 8.0)
  const DefaultDatalag: Option<int> := Some(26)

  const GroupColsMessage: string := "Must specify a list containing at least one column name to group by."

  /**
   * The defaults of `__init__`: `cap` is 7.5 * 60 / 8 = 56.25, and `datalag` 26 weeks
   * yields two holiday rows, the covid block of 366 days and a data-lag block of 182 days
   * when the two clock reads are less than a day apart.
   */
  lemma DefaultHolidays(today1: int, today2: int)
    requires today1 <= today2 < today1 + TicksPerDay
    ensures DefaultFloor == Int(0) && DefaultCap == Real(56.25)
    ensures var h := Holidays(DefaultDatalag, today1, today2);
      && |h| == 2
      && h[0].holiday == "covid19" && h[0].upperWindow == 366
      && h[1].holiday == "data_lag" && h[1].ds == today1 - Weeks(26) && h[1].upperWindow == 182
  {
    CovidBlockSpansLeapYear();
    HolidaysWithLag(DefaultDatalag, today1, today2);
  }

  /** The check at the top of `__init__`: a list holding at least one column name. */
  function CheckGroupCols(arg: GroupColsArg): (r: Result<seq<string>>)
    ensures r.Success? <==> arg.PyList? && |arg.items| >= 1
    ensures r.Success? ==> r.value == arg.items
    ensures r.Failure? ==> r.error == ValueError(GroupColsMessage)
  {
    if arg.PyList? && |arg.items| >= 1 then Success(arg.items) else Failure(ValueError(GroupColsMessage))
  }

  /** A group key: the values of the grouping columns, in the order of the grouping columns. */
  type GroupKey = seq<Value>

  predicate HasColumns(t: Table, cols: seq<string>)
  {
    forall c :: c in cols ==> c in t.columns
  }

  /** The first of `cols` that `t` lacks, if any: the label `groupby` reports in its KeyError. */
  function FirstMissing(t: Table, cols: seq<string>): (r: Option<string>)
    ensures r.None? <==> HasColumns(t, cols)
    ensures r.Some? ==> r.value in cols && r.value !in t.columns
    ensures r.Some? ==> exists j :: 0 <= j < |cols| && cols[j] == r.value && forall k :: 0 <= k < j ==> cols[k] in t.columns
  {
    if cols == [] then None
    else if cols[0] !in t.columns then Some(cols[0])
    else FirstMissing(t, cols[1..])
  }

  function RowKey(row: Row, cols: seq<string>): (k: GroupKey)
    requires forall c :: c in cols ==> c in row
    ensures |k| == |cols|
    ensures forall j :: 0 <= j < |cols| ==> k[j] == row[cols[j]]
  {
    seq(|cols|, j requires 0 <= j < |cols| => row[cols[j]])
  }

  /** The group key of every row, in row order. */
  function RowKeys(t: Table, cols: seq<string>): (ks: seq<GroupKey>)
    requires WellFormed(t) && HasColumns(t, cols)
    ensures |ks| == |t.rows|
    ensures forall i :: 0 <= i < |t.rows| ==> ks[i] == RowKey(t.rows[i], cols)
  {
    seq(|t.rows|, i requires 0 <= i < |t.rows| => RowKey(t.rows[i], cols))
  }

  /** The distinct group keys of `t`, in the order `Fit` visits them. */
  function GroupKeys(t: Table, cols: seq<string>): seq<GroupKey>
    requires WellFormed(t) && HasColumns(t, cols)
  {
    FirstAppearances(RowKeys(t, cols))
  }

  /** The positions of the rows whose group key is `key`. */
  function GroupPositions(t: Table, cols: seq<string>, key: GroupKey): (p: seq<nat>)
    requires WellFormed(t) && HasColumns(t, cols)
    ensures forall k :: 0 <= k < |p| ==> p[k] < |t.rows|
  {
    var p := IndicesOf(RowKeys(t, cols), key);
    assert forall k :: 0 <= k < |p| ==> p[k] in p;
    p
  }

  /** The sub-frame `groupby` yields for `key`, before the grouping columns are dropped. */
  function GroupRows(t: Table, cols: seq<string>, key: GroupKey): (r: Table)
    requires WellFormed(t) && HasColumns(t, cols)
    ensures WellFormed(r)
  {
    SelectRows(t, GroupPositions(t, cols, key))
  }

  /** The training frame of group `key` before `floor` and `cap` are assigned. */
  function GroupFrame(t: Table, cols: seq<string>, key: GroupKey): (r: Table)
    requires WellFormed(t) && HasColumns(t, cols)
    ensures WellFormed(r)
  {
    DropColumns(GroupRows(t, cols, key), cols)
  }

  /** The training frames of all groups of `t`, by group key. */
  function GroupFrames(t: Table, cols: seq<string>): (m: map<GroupKey, Table>)
    requires WellFormed(t) && HasColumns(t, cols)
    ensures forall k :: k in m <==> k in RowKeys(t, cols)
    ensures forall k :: k in m ==> WellFormed(m[k])
  {
    map k | k in RowKeys(t, cols) :: GroupFrame(t, cols, k)
  }

  /**
   * `groupby` yields no empty group: the frame `GroupFrames` holds for each key is that
   * key's `GroupFrame`, whose contents `GroupFrameContents` states, and it has a row.
   */
  lemma GroupFramesNonEmpty(t: Table, cols: seq<string>)
    requires WellFormed(t) && HasColumns(t, cols)
    ensures forall k :: k in GroupFrames(t, cols) ==>
      GroupFrames(t, cols)[k] == GroupFrame(t, cols, k) && |GroupFrames(t, cols)[k].rows| >= 1
  {
    forall k | k in GroupFrames(t, cols)
      ensures |GroupFrame(t, cols, k).rows| >= 1
    {
      GroupFrameContents(t, cols, k);
      var i :| 0 <= i < |RowKeys(t, cols)| && RowKeys(t, cols)[i] == k;
      assert i in GroupPositions(t, cols, k);
    }
  }

  /** The predictors `Fit` registers: every column but `ds` and `y`, in column order. */
  function ExtraPredictors(columns: seq<string>): (r: seq<string>)
    ensures forall c :: c in r <==> c in columns && c != "ds" && c != "y"
    ensures IsSubsequence(r, columns)
  {
    Without(columns, ["ds", "y"])
  }

  /** The group frame with the constant `floor` and `cap` columns assigned. */
  function Saturated(frame: Table, floor: Value, cap: Value): (r: Table)
    requires WellFormed(frame)
    ensures WellFormed(r)
  {
    Broadcast(Broadcast(frame, "floor", floor), "cap", cap)
  }

  function Registrations(names: seq<string>): (events: seq<Event>)
    ensures |events| == |names|
    ensures forall i :: 0 <= i < |names| ==> events[i] == RegressorAdded(names[i])
  {
    seq(|names|, i requires 0 <= i < |names| => RegressorAdded(names[i]))
  }

  /**
   * The calls `Fit` makes on the forecaster of one group whose frame, with the grouping
   * columns dropped, is `frame`.
   */
  function GroupTrace(holidays: seq<HolidayRow>, frame: Table, floor: Value, cap: Value): seq<Event>
    requires WellFormed(frame)
  {
    [Constructed(holidays, "logistic")]
      + Registrations(ExtraPredictors(frame.columns))
      + [Fitted(Saturated(frame, floor, cap))]
  }

  /**
   * The training frame of a group holds exactly that group's rows, in their original
   * order and with their index labels, and every column but the grouping columns.
   */
  lemma GroupFrameContents(data: Table, cols: seq<string>, key: GroupKey)
    requires WellFormed(data) && HasColumns(data, cols)
    ensures var f, p := GroupFrame(data, cols, key), GroupPositions(data, cols, key);
      && f.columns == Without(data.columns, cols)
      && (forall c :: c in cols ==> c !in f.columns)
      && |f.rows| == |p|
      && (forall i :: 0 <= i < |data.rows| ==> (i in p <==> RowKey(data.rows[i], cols) == key))
      && (forall j :: 0 <= j < |p| ==>
            && f.index[j] == data.index[p[j]]
            && forall c :: c in f.columns ==> f.rows[j][c] == data.rows[p[j]][c])
  {
  }

  /** Sum of the training frames' row counts over `keys`. */
  function GroupSizes(data: Table, cols: seq<string>, keys: seq<GroupKey>): nat
    requires WellFormed(data) && HasColumns(data, cols)
  {
    if keys == [] then 0
    else GroupSizes(data, cols, keys[..|keys| - 1]) + |GroupFrame(data, cols, keys[|keys| - 1]).rows|
  }

  lemma {:induction false} GroupSizesCountPositions(data: Table, cols: seq<string>, keys: seq<GroupKey>)
    requires WellFormed(data) && HasColumns(data, cols)
    ensures GroupSizes(data, cols, keys) == TotalCount(keys, RowKeys(data, cols))
  {
    if keys != [] {
      GroupSizesCountPositions(data, cols, keys[..|keys| - 1]);
    }
  }

  /**
   * The groups partition the rows: every row falls in the group of exactly one key,
   * and the training frames together hold as many rows as the input.
   */
  lemma RowsPartitionIntoGroups(data: Table, cols: seq<string>)
    requires WellFormed(data) && HasColumns(data, cols)
    ensures GroupSizes(data, cols, GroupKeys(data, cols)) == |data.rows|
    ensures forall i :: 0 <= i < |data.rows| ==>
      && RowKey(data.rows[i], cols) in GroupKeys(data, cols)
      && forall k :: i in GroupPositions(data, cols, k) <==> k == RowKey(data.rows[i], cols)
  {
    var keys := RowKeys(data, cols);
    GroupSizesCountPositions(data, cols, GroupKeys(data, cols));
    GroupSizesSum(keys);
    forall i | 0 <= i < |data.rows|
      ensures RowKey(data.rows[i], cols) in GroupKeys(data, cols)
      ensures forall k :: i in GroupPositions(data, cols, k) <==> k == RowKey(data.rows[i], cols)
    {
      ExactlyOneGroup(keys, i);
    }
  }

  /**
   * The regressors of a group are the input's columns other than the grouping columns,
   * `ds` and `y`, each once and in the input's column order; `floor` and `cap` are among
   * them only when the input already has such a column.
   */
  lemma RegressorsOfGroup(data: Table, cols: seq<string>, key: GroupKey)
    requires WellFormed(data) && HasColumns(data, cols)
    ensures var regs := ExtraPredictors(GroupFrame(data, cols, key).columns);
      && (forall c :: c in regs <==> c in data.columns && c !in cols && c != "ds" && c != "y")
      && Distinct(regs)
      && IsSubsequence(regs, data.columns)
  {
    var kept := Without(data.columns, cols);
    SubsequenceTransitive(Without(kept, ["ds", "y"]), kept, data.columns);
  }

  /**
   * After the assignments, every row carries the configured `floor` and `cap`; rows,
   * index and all other cells are unchanged, and only missing `floor`/`cap` columns are
   * appended, in that order.
   */
  lemma SaturatedRows(frame: Table, floor: Value, cap: Value)
    requires WellFormed(frame)
    ensures var s := Saturated(frame, floor, cap);
      && s.index == frame.index
      && |s.rows| == |frame.rows|
      && s.columns == frame.columns + Without(["floor", "cap"], frame.columns)
      && (forall i :: 0 <= i < |s.rows| ==> s.rows[i]["floor"] == floor && s.rows[i]["cap"] == cap)
      && (forall i, c :: 0 <= i < |s.rows| && c in frame.rows[i] && c != "floor" && c != "cap" ==>
            s.rows[i][c] == frame.rows[i][c])
  {
    var withFloor := Broadcast(frame, "floor", floor);
    assert "cap" in withFloor.columns <==> "cap" in frame.columns;
    assert ["floor", "cap"][1..] == ["cap"];
  }

  /**
   * A trace made of a construction, registrations of `regs` and a fit has every
   * registration before the one fit, which comes last.
   */
  lemma TraceOrder(first: Event, regs: seq<string>, last: Event)
    requires first.Constructed? && last.Fitted?
    ensures var t := [first] + Registrations(regs) + [last];
      && |t| == |regs| + 2
      && (forall i :: 1 <= i < |t| - 1 ==> t[i] == RegressorAdded(regs[i - 1]))
      && (forall i, j :: 0 <= i < |t| && 0 <= j < |t| && t[i].RegressorAdded? && t[j].Fitted? ==> i < j)
      && (forall i :: 0 <= i < |t| && t[i].Fitted? ==> i == |t| - 1)
  {
    var t := [first] + Registrations(regs) + [last];
    assert forall i :: 1 <= i < |t| - 1 ==> t[i] == Registrations(regs)[i - 1];
  }

  /**
   * Each forecaster is constructed with the holidays and logistic growth, then receives
   * every extra predictor in column order, and only then is fitted, once, on the
   * saturated frame.
   */
  lemma RegressorsBeforeFit(holidays: seq<HolidayRow>, frame: Table, floor: Value, cap: Value)
    requires WellFormed(frame)
    ensures var t, regs := GroupTrace(holidays, frame, floor, cap), ExtraPredictors(frame.columns);
      && |t| == |regs| + 2
      && t[0] == Constructed(holidays, "logistic")
      && (forall i :: 1 <= i < |t| - 1 ==> t[i] == RegressorAdded(regs[i - 1]))
      && t[|t| - 1] == Fitted(Saturated(frame, floor, cap))
      && (forall i, j :: 0 <= i < |t| && 0 <= j < |t| && t[i].RegressorAdded? && t[j].Fitted? ==> i < j)
      && (forall i :: 0 <= i < |t| && t[i].Fitted? ==> i == |t| - 1)
  {
    TraceOrder(Constructed(holidays, "logistic"), ExtraPredictors(frame.columns), Fitted(Saturated(frame, floor, cap)));
  }

  /**
   * The outcome of `fit` as the code stands: models.py never imports `Prophet`, so after
   * `groupby` has checked the grouping columns, the first group raises NameError. Only a
   * frame with no rows, which has no groups, gets through; the result then lists the groups
   * trained, none.
   */
  function FitOutcomeAsWritten(data: Table, groupCols: seq<string>): (r: Result<seq<GroupKey>>)
    requires WellFormed(data) && |groupCols| >= 1
    ensures !HasColumns(data, groupCols) <==> r.Failure? && r.error.KeyError?
    ensures r.Failure? && r.error.KeyError? ==> r.error.key in groupCols && r.error.key !in data.columns
    ensures r.Success? ==> r.value == []
  {
    match FirstMissing(data, groupCols)
    case Some(c) => Failure(KeyError(c))
    case None =>
      var keys := GroupKeys(data, groupCols);
      if keys == [] then Success([]) else Failure(NameError("Prophet"))
  }

  /** As written, `fit` fails on every frame that has a row and all grouping columns. */
  lemma FitAsWrittenFailsOnAnyRow(data: Table, groupCols: seq<string>)
    requires WellFormed(data) && |groupCols| >= 1 && HasColumns(data, groupCols)
    ensures FitOutcomeAsWritten(data, groupCols).Success? <==> |data.rows| == 0
    ensures |data.rows| > 0 ==> FitOutcomeAsWritten(data, groupCols) == Failure(NameError("Prophet"))
  {
    if |data.rows| > 0 {
      assert RowKeys(data, groupCols)[0] in RowKeys(data, groupCols);
      assert RowKeys(data, groupCols)[0] in GroupKeys(data, groupCols);
    } else {
      assert RowKeys(data, groupCols) == [];
    }
  }

  class BatchCOVIDLogisticProphet {
    var groupCols: seq<string>
    var floor: Value
    var cap: Value
    var holidays: seq<HolidayRow>
    /** The registry filled by `Fit`, one forecaster per group key. */
    var models: map<GroupKey, Prophet>

    /** `__init__` admits only a non-empty list of grouping columns. */
    predicate Valid()
      reads this
    {
      |groupCols| >= 1
    }

    /** `__init__` past its check; `today1` and `today2` are the two reads of the clock. */
    constructor (groupCols: seq<string>, floor: Value, cap: Value, datalag: Option<int>, today1: int, today2: int)
      requires |groupCols| >= 1
      ensures Valid()
      ensures this.groupCols == groupCols && this.floor == floor && this.cap == cap
      ensures holidays == Holidays(datalag, today1, today2)
      ensures models == map[]
    {
      this.groupCols := groupCols;
      this.floor := floor;
      this.cap := cap;
      var covidBlock := CovidBlock();
      if Truthy(datalag) {
        var dataLagBlock := DataLagBlock(datalag.value, today1, today2);
        holidays := [covidBlock, dataLagBlock];
      } else {
        holidays := [covidBlock];
      }
      models := map[];
    }

    /** `BatchCOVIDLogisticProphet(group_cols, floor, cap, datalag)`, raising ValueError on a bad `group_cols`. */
    static method Create(groupCols: GroupColsArg, floor: Value, cap: Value, datalag: Option<int>, today1: int, today2: int)
      returns (r: Result<BatchCOVIDLogisticProphet>)
      ensures r.Success? <==> groupCols.PyList? && |groupCols.items| >= 1
      ensures r.Failure? ==> r.error == ValueError(GroupColsMessage)
      ensures r.Success? ==> fresh(r.value) && r.value.groupCols == groupCols.items
      ensures r.Success? ==> r.value.floor == floor && r.value.cap == cap && r.value.models == map[]
      ensures r.Success? ==> r.value.holidays == Holidays(datalag, today1, today2)
      ensures r.Success? ==> r.value.Valid()
    {
      var checked := CheckGroupCols(groupCols);
      if checked.Failure? {
        return Failure(checked.error);
      }
      var model := new BatchCOVIDLogisticProphet(checked.value, floor, cap, datalag, today1, today2);
      r := Success(model);
    }

    /**
     * The body of `fit`'s loop for one group whose grouping columns are already dropped:
     * construct the forecaster, register the extra predictors, assign `floor` and `cap`, fit.
     */
    method TrainGroup(groupFrame: Table) returns (model: Prophet)
      requires WellFormed(groupFrame)
      ensures fresh(model)
      ensures model.trace == GroupTrace(holidays, groupFrame, floor, cap)
    {
      model := new Prophet(holidays, "logistic");
      var extraPredictors := ExtraPredictors(groupFrame.columns);
      var j := 0;
      while j < |extraPredictors|
        invariant 0 <= j <= |extraPredictors|
        invariant model.trace == [Constructed(holidays, "logistic")] + Registrations(extraPredictors[..j])
      {
        model.AddRegressor(extraPredictors[j]);
        j := j + 1;
        assert extraPredictors[..j] == extraPredictors[..j - 1] + [extraPredictors[j - 1]];
      }
      var frame := Broadcast(groupFrame, "floor", floor);
      frame := Broadcast(frame, "cap", cap);
      model.Fit(frame);
      assert extraPredictors[..j] == extraPredictors;
    }

    /**
     * The loop of `fit` over the distinct group keys `keys`: a registry holding, for each
     * key, a new forecaster trained on that key's frame in `frames`.
     */
    method FitGroups(keys: seq<GroupKey>, frames: map<GroupKey, Table>) returns (registry: map<GroupKey, Prophet>)
      requires Distinct(keys)
      requires forall k :: k in keys ==> k in frames && WellFormed(frames[k])
      ensures forall k :: k in registry <==> k in keys
      ensures forall k :: k in registry ==>
                fresh(registry[k]) && registry[k].trace == GroupTrace(holidays, frames[k], floor, cap)
      ensures forall k, k' :: k in registry && k' in registry && k != k' ==> registry[k] != registry[k']
    {
      registry := map[];
      var i := 0;
      while i < |keys|
        invariant 0 <= i <= |keys|
        invariant forall j :: 0 <= j < i ==> keys[j] in registry
        invariant forall k :: k in registry ==> k in keys[..i]
        invariant forall k :: k in registry ==>
                    fresh(registry[k]) && registry[k].trace == GroupTrace(holidays, frames[k], floor, cap)
        invariant forall k, k' :: k in registry && k' in registry && k != k' ==> registry[k] != registry[k']
      {
        var key := keys[i];
        var model := TrainGroup(frames[key]);
        registry := registry[key := model];
        i := i + 1;
      }
    }

    /** The groups of `data`, each with a new forecaster trained on its frame. */
    method TrainAll(data: Table) returns (registry: map<GroupKey, Prophet>)
      requires WellFormed(data) && HasColumns(data, groupCols)
      ensures forall k :: k in registry <==> k in RowKeys(data, groupCols)
      ensures forall k :: k in registry ==>
                fresh(registry[k]) && registry[k].trace == GroupTrace(holidays, GroupFrames(data, groupCols)[k], floor, cap)
      ensures forall k, k' :: k in registry && k' in registry && k != k' ==> registry[k] != registry[k']
    {
      registry := FitGroups(GroupKeys(data, groupCols), GroupFrames(data, groupCols));
    }

    /**
     * `fit(data)` as intended, with `Prophet` imported (as written it raises NameError on
     * the first group: see `FitOutcomeAsWritten`). A fresh registry with one forecaster
     * per distinct group key, each constructed with the holidays, given every remaining
     * predictor, and fitted on its group's rows with the grouping columns dropped and
     * `floor` and `cap` assigned. A grouping column missing from `data` raises KeyError,
     * leaving the registry empty.
     */
    method Fit(data: Table) returns (r: Result<BatchCOVIDLogisticProphet>)
      requires Valid() && WellFormed(data)
      modifies this`models
      ensures r.Success? <==> HasColumns(data, groupCols)
      ensures r.Failure? ==> r.error == KeyError(FirstMissing(data, groupCols).value) && models == map[]
      ensures r.Success? ==> r.value == this
      ensures r.Success? ==> forall k :: k in models <==> k in RowKeys(data, groupCols)
      ensures r.Success? ==> forall k :: k in models ==>
                fresh(models[k]) && models[k].trace == GroupTrace(holidays, GroupFrames(data, groupCols)[k], floor, cap)
      ensures forall k, k' :: k in models && k' in models && k != k' ==> models[k] != models[k']
    {
      var missing := FirstMissing(data, groupCols);
      if missing.Some? {
        models := map[];
        return Failure(KeyError(missing.value));
      }
      models := TrainAll(data);
      r := Success(this);
    }
  }
}
