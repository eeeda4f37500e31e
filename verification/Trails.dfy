/** Histories of a step relation, newest step last. */
module Trails {
  datatype Trail<S, E> = Begin(s: S) | Then(before: Trail<S, E>, step: E, s: S)

  function Origin<S, E>(tr: Trail<S, E>): S {
    match tr
    case Begin(s) => s
    case Then(before, _, _) => Origin(before)
  }
}
