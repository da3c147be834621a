/**
 * The forecasting library's model object. Its fitting is not modelled: an instance
 * records, in order, the calls the orchestrator makes on it.
 */
module Forecaster {
  import opened Tables
  import opened Calendar

  datatype Event =
    | Constructed(holidays: seq<HolidayRow>, growth: string)
    | RegressorAdded(name: string)
    | Fitted(history: Table)

  class Prophet {
    var trace: seq<Event>

    /** `Prophet(holidays=..., growth=...)` */
    constructor (holidays: seq<HolidayRow>, growth: string)
      ensures trace == [Constructed(holidays, growth)]
    {
      trace := [Constructed(holidays, growth)];
    }

    /** `model.add_regressor(name)` */
    method AddRegressor(name: string)
      modifies this
      ensures trace == old(trace) + [RegressorAdded(name)]
    {
      trace := trace + [RegressorAdded(name)];
    }

    /** `model.fit(history)` */
    method Fit(history: Table)
      modifies this
      ensures trace == old(trace) + [Fitted(history)]
    {
      trace := trace + [Fitted(history)];
    }
  }
}
