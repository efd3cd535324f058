/**
 * The top-level dispatch: the plot-type string chooses which plot runs and what the single
 * numeric parameter means for it.
 */
module Dispatch {

  /** The plot a run produces, with the arguments its plotting routine receives. */
  datatype Plot =
    | IedPlot(altitude: real)             // electron density at the level nearest `altitude`
    | TecPlot                             // total electron content; takes no parameter
    | ContourPlot(value: real, flag: int) // flag 0: fixed longitude, flag 1: fixed latitude
    | NoPlot                              // an unknown type: nothing is drawn

  /** The plot types the command line offers. */
  const PlotTypes: set<string> := {"ied", "tec", "lon", "lat"}

  /**
   * `ied` passes the parameter as the altitude, `tec` ignores it, `lon` and `lat` pass it as
   * the fixed coordinate with flag 0 and 1, and any other type does nothing.
   */
  function Process(t: string, parameter: real): (p: Plot)
    ensures p.NoPlot? <==> t !in PlotTypes
    ensures p.IedPlot? <==> t == "ied"
    ensures p == TecPlot <==> t == "tec"
    ensures p.ContourPlot? <==> t == "lon" || t == "lat"
    ensures p.IedPlot? ==> p.altitude == parameter
    ensures p.ContourPlot? ==> p.value == parameter && (p.flag == 0 <==> t == "lon") && (p.flag == 1 <==> t == "lat")
  {
    if t == "ied" then IedPlot(parameter)
    else if t == "tec" then TecPlot
    else if t == "lon" then ContourPlot(parameter, 0)
    else if t == "lat" then ContourPlot(parameter, 1)
    else NoPlot
  }

  /** A plot that draws something and that a known type selects: not NoPlot, and a contour only with flag 0 or 1. */
  predicate Draws(p: Plot)
  {
    match p
    case NoPlot => false
    case ContourPlot(_, flag) => flag == 0 || flag == 1
    case _ => true
  }

  /** The plot-type string that selects a plot. */
  function TypeOf(p: Plot): (t: string)
    requires Draws(p)
    ensures t in PlotTypes
  {
    match p
    case IedPlot(_) => "ied"
    case TecPlot => "tec"
    case ContourPlot(_, flag) => if flag == 0 then "lon" else "lat"
  }

  /** The parameter a plot was given (irrelevant, and 0, for the TEC plot). */
  function ParameterOf(p: Plot): real
  {
    match p
    case IedPlot(altitude) => altitude
    case ContourPlot(value, _) => value
    case _ => 0.0
  }

  /** Every plot the dispatch can produce is produced by its own type string and parameter. */
  lemma ProcessTypeOf(p: Plot)
    requires Draws(p)
    ensures Process(TypeOf(p), ParameterOf(p)) == p
  {
  }

  /**
   * A known type string is recovered from the plot it selects, and the parameter too unless
   * the type ignores it: the dispatch loses nothing but the parameter of `tec`.
   */
  lemma TypeOfProcess(t: string, parameter: real)
    requires t in PlotTypes
    ensures Draws(Process(t, parameter))
    ensures TypeOf(Process(t, parameter)) == t
    ensures t != "tec" ==> ParameterOf(Process(t, parameter)) == parameter
    ensures forall other: real :: Process("tec", other) == Process("tec", parameter)
  {
  }
}
