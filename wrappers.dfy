/** Option and Result, the failure-carrying values every other module returns,
    and the two NestJS HTTP exceptions the core throws. */
module Wrappers {

  datatype Option<+T> = None | Some(value: T)

  datatype Result<+T, +E> = Success(value: T) | Failure(error: E)

  /** BadRequestException and NotFoundException, each with its message. */
  datatype HttpException = BadRequest(message: string) | NotFound(message: string)
}
