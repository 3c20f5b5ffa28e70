/** An optional value, and the sum of a list. */
module Basics {

  datatype Option<+T> = None | Some(value: T)

  function Sum(s: seq<nat>): nat {
    if s == [] then 0 else Sum(s[..|s| - 1]) + s[|s| - 1]
  }
}
