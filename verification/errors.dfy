/** The errors the services throw by name, with the message they carry. */
module Errors {

  datatype ServiceError = UserAlreadyExists | UserNotFound | RestaurantNotFound | ReviewNotFound {

    /** The `message` of the `Error` the service throws. */
    function Message(): string {
      match this
      case UserAlreadyExists => "USER_ALREADY_EXISTS"
      case UserNotFound => "USER_NOT_FOUND"
      case RestaurantNotFound => "RESTAURANT_NOT_FOUND"
      case ReviewNotFound => "REVIEW_NOT_FOUND"
    }
  }

  /**
   * What a controller catches from a service: a named service error, or an
   * error the database client raises itself (a required column left unset),
   * whose message text is the client's own.
   */
  datatype Failure = Service(error: ServiceError) | StoreRejected
}
