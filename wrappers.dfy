/** Optional values and success-or-failure results, used where the game
    works with optionals (`CGPoint?`, a node that may have no name) or ends
    the process with `fatalError`. */
module Wrappers {

  datatype Option<+T> = None | Some(value: T)

  datatype Result<+T, +E> = Ok(value: T) | Err(error: E)
}
