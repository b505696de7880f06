/** Values shared by every service: optional values, results with the
    services' error kinds, and the outcome of a peer call. */
module Wrappers {

  /** Identifiers (Mongo ObjectIds, user ids) are opaque strings. */
  type Id = string

  datatype Option<+T> = None | Some(value: T) {
    /** The JavaScript `x ?? d` on a value that may be undefined or null. */
    function GetOr(default: T): T {
      match this
      case Some(v) => v
      case None => default
    }
  }

  /** The exceptions the services raise, by kind. */
  datatype Error =
    | BadRequest(message: string)           // NestJS BadRequestException
    | InternalServerError(message: string)  // NestJS InternalServerErrorException
    | Failure(message: string)              // a plain `new Error(message)`
    | DuplicateKey(key: string)             // MongoDB duplicate key on a unique index
    | TypeError                             // a property read on `undefined`
    | Unavailable                           // a store or peer call that failed

  datatype Result<+T> = Ok(value: T) | Err(error: Error)

  /** One settled peer call, as `Promise.allSettled` reports it. */
  datatype Peer<+T> = Fulfilled(value: T) | Rejected
}
