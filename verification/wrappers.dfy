/** Optional values and results with an error, as the renderer's optionals
    (`Node?`, `node.mesh`, `node.camera`) and the checked frame need them. */
module Wrappers {

  datatype Option<+T> = None | Some(value: T)

  datatype Result<+R, +E> = Success(value: R) | Failure(error: E)
}
