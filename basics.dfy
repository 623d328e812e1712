/** Option and Result values shared by every module of the model. A `Result`
    stands for a JavaScript call that either returns a value or throws an
    `Error` whose `message` is kept. */
module Basics {

  datatype Option<T> = None | Some(value: T)

  datatype Result<T> = Ok(value: T) | Err(message: string)
}
