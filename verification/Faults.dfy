/** Steps that may fail: an atomic file replacement or one call to the container
    runtime. With `calm` nothing fails. */
module Faults {
  /** `Error` is an exception the caller sees; `Crash` is the last thing the
      process does. */
  datatype Fault = Ok | Error | Crash

  /** The step takes effect or not, and only a success is known to have. */
  method Step<W>(before: W, after: W, calm: bool) returns (w: W, f: Fault)
    ensures f == Ok ==> w == after
    ensures w == before || w == after
    ensures calm ==> f == Ok
  {
    var effect: bool := *;
    var dies: bool := *;
    var fails: bool := *;
    if calm || !(dies || fails) {
      return after, Ok;
    }
    w := if effect then after else before;
    f := if dies then Crash else Error;
  }

  /** Anything that only reads, or works on files outside the model. */
  method Check(calm: bool) returns (f: Fault)
    ensures calm ==> f == Ok
  {
    var dies: bool := *;
    var fails: bool := *;
    f := if calm || !(dies || fails) then Ok else if dies then Crash else Error;
  }
}
