/** Failure-carrying results shared by the pipe and the two services. */
module Wrappers {

  datatype Option<+T> = None | Some(value: T)

  /** The two NestJS HTTP exceptions the core throws, with their messages. */
  datatype HttpException =
    | BadRequest(message: string)
    | NotFound(message: string)

  /** A call either returns a value or throws one of the exceptions above. */
  datatype Result<+T> = Ok(value: T) | Err(error: HttpException)
}
