/**
 * What a backend handler hands back: a JSON reply, or an error passed to
 * `next`. An `ErrorResponse` carries its own status; any other thrown
 * error reaches the error middleware with only its message.
 */
module Http {
  /** `{ success, message }` */
  datatype Reply = Reply(success: bool, message: string)

  datatype Failure =
    | ErrorResponse(message: string, status: int)
    | Thrown(message: string)
    /** Prisma's error for an `update` whose row does not exist. */
    | RecordNotFound
}
