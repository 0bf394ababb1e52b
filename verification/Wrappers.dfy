/** The optional value used throughout the models, in place of a nil pointer. */
module Wrappers {
  datatype Option<+T> = None | Some(value: T)
}

/** Finite runs of the concurrent protocols: the steps taken, the latest one outermost. */
module Traces {
  datatype Trace<S> = Start | Then(before: Trace<S>, step: S)

  function Length<S>(run: Trace<S>): nat {
    match run
    case Start => 0
    case Then(before, _) => Length(before) + 1
  }

  /** The step was taken at some point of the run. */
  predicate Took<S(==)>(run: Trace<S>, step: S) {
    run.Then? && (run.step == step || Took(run.before, step))
  }
}
