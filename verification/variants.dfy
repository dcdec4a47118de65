/**
  The repository ships two near-identical copies of the calculator. They share
  the interval algebra and differ in a handful of places, which the model
  selects with this flag.
 */
module Variants {

  datatype Variant =
    | SrcScript   // src/get_availability.py: default merge, padding on both sides, `start <= end`, week marker
    | RootScript  // get_availability.py: no defaults, padding after only, `start < end`, no week marker

  /** Whether the work-window assertion rejects zero-length windows. */
  predicate StrictWindows(v: Variant) {
    v.RootScript?
  }

  /** Whether print_ranges prints the "Next week:" marker. */
  predicate MarksWeeks(v: Variant) {
    v.SrcScript?
  }
}
