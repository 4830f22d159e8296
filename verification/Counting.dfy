/** How often something happens along a run. */
module Counting {
  /** The number of marked steps from i up to n. */
  function Count(marks: seq<bool>, i: nat, n: nat): nat
    requires i <= n <= |marks|
    decreases n - i
  {
    if i == n then 0 else Count(marks, i, n - 1) + if marks[n - 1] then 1 else 0
  }
}
