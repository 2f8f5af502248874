// The optional value used for every operation of the source that can fail,
// throw or reach undefined behaviour: `None` marks such an outcome.

module Wrappers {

  datatype Option<T> = None | Some(value: T)
}
