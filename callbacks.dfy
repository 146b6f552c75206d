/** Names for the value closures the sample node kinds hand to their connectors. A closure in
    the source captures its own node; here the graph applies the named action to the node whose
    body produced it. */
module Callbacks {

  /** The `FnOnce(T)` closures of the sample inputs. */
  datatype InputAction =
    | AdderValue1     // adder, first input: `value_1.replace(x)`
    | AdderValue2     // adder, second input: `value_2.replace(x)`
    | OneToNValue1    // one-to-N, its input: `value_1.replace(x)`
    | SinkValue       // sink, its input: `value.replace(x)`

  /** The `FnOnce() -> T` closures of the sample outputs. */
  datatype OutputAction =
    | AdderSum        // adder: `value_1.wrapping_add(value_2)`
    | OneToNPull      // one-to-N, every output: `output_count += 1`, then `value_1`
    | SourceValue     // source: `value`
}
