/** Finite runs, as lists that grow at the end: the natural shape for statements about what a
    component has become after everything that happened so far. */
module Traces {
  datatype Log<E> = Start | Then(before: Log<E>, last: E)
}
