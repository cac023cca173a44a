/** The errors the services throw, each with the HTTP status class its constructor gives it. */
module ServiceErrors {

  datatype ServiceError =
    | NotFound(message: string)    // status 404
    | BadRequest(message: string)  // status 400
    | Failure(message: string)     // a plain `Error`

  const UserNotFoundMessage := "User not found"
  const InsufficientBalanceMessage := "Insufficient balance"
}
