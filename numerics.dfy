/**
 * Routines the core calls but does not define: scipy's `linregress`, numpy's
 * `log` and `exp`, and pandas' sample standard deviation. They are passed in
 * as opaque functions; the model states only how their results are chosen
 * and combined.
 */
module Numerics {

  /** The five values `linregress(x, y)` returns. */
  datatype Fit = Fit(slope: real, intercept: real, r: real, p: real, stdErr: real)

  datatype Routines = Routines(
    linregress: (seq<real>, seq<real>) -> Fit,
    ln: real -> real,
    exp: real -> real,
    std: seq<real> -> real)
}
