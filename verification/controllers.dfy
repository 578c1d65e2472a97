/**
 * The handlers of the user, restaurant and review controllers, once the
 * guards have admitted the request: they call the service and turn a
 * thrown service error into a `success: false` body instead of an HTTP error.
 */
module Controllers {
  import opened Wrappers
  import opened Errors
  import Encryption
  import Users
  import Restaurants
  import Reviews

  /** `{success: true, message, data: id}` or `{success: false, message: err.message}`. */
  datatype Reply = Succeeded(message: string, data: string) | Failed(failure: Failure) {

    predicate Success() {
      Succeeded?
    }

    /** The `message` field; a database client error's own text is not modelled. */
    function Message(): (m: Option<string>)
      ensures Succeeded? ==> m == Some(message)
      ensures Failed? && failure.Service? ==> m == Some(failure.error.Message())
      ensures Failed? && failure.StoreRejected? ==> m.None?
    {
      match this
      case Succeeded(msg, _) => Some(msg)
      case Failed(Service(e)) => Some(e.Message())
      case Failed(StoreRejected) => None
    }
  }

  // ----- User controller -----

  /** `POST /user`: register; the store is unchanged when the service refuses. */
  function CreateUser(t: Users.UserTable, enc: Encryption.Service, input: Users.NewUser, defaults: Users.UserDefaults)
    : (out: (Reply, Users.UserTable))
    requires forall u :: u in t ==> u.id != defaults.id
    ensures out.0.Success() <==> Users.Create(t, enc, input, defaults).Ok?
    ensures out.0 == Failed(Service(UserAlreadyExists)) <==> exists u :: u in t && u.email == input.email
    ensures out.0.Failed? ==> out.1 == t
    ensures out.0.Succeeded? ==> out.0 == Succeeded("User created successfully", defaults.id)
    ensures out.0.Succeeded? ==> |out.1| == |t| + 1 && out.1[..|t|] == t && out.1[|t|].id == defaults.id
    ensures out.0.Succeeded? ==> out.1 == Users.Create(t, enc, input, defaults).value.1
  {
    match Users.Create(t, enc, input, defaults)
    case Err(e) => (Failed(Service(e)), t)
    case Ok((u, t')) => (Succeeded("User created successfully", u.id), t')
  }

  /**
   * `PATCH /user`: update the caller's own record; the id comes from the
   * authenticated user, never from the request.
   */
  function UpdateOwnUser(t: Users.UserTable, enc: Encryption.Service, caller: Users.User, patch: Users.UserPatch)
    : (out: (Reply, Users.UserTable))
    ensures out.0.Failed? <==> Users.Update(t, enc, caller.id, patch).Err?
    ensures out.0.Failed? ==> out.1 == t && out.0.failure == Service(Users.Update(t, enc, caller.id, patch).error)
    ensures out.0.Succeeded? ==> out.0 == Succeeded("User updated successfully", caller.id)
    ensures out.0.Succeeded? ==>
              |out.1| == |t| && forall i :: 0 <= i < |t| && out.1[i] != t[i] ==> t[i].id == caller.id
    ensures out.0.Succeeded? ==> out.1 == Users.Update(t, enc, caller.id, patch).value.1
  {
    UpdateUser(t, enc, caller.id, patch)
  }

  /** `PATCH /user/:id`: an administrator updates any ACTIVE user. */
  function UpdateUser(t: Users.UserTable, enc: Encryption.Service, id: string, patch: Users.UserPatch)
    : (out: (Reply, Users.UserTable))
    ensures out.0.Failed? <==> Users.Update(t, enc, id, patch).Err?
    ensures out.0.Failed? ==> out.1 == t && out.0.failure == Service(Users.Update(t, enc, id, patch).error)
    ensures out.0.Succeeded? ==> out.0 == Succeeded("User updated successfully", id)
    ensures out.0.Succeeded? ==>
              |out.1| == |t| && forall i :: 0 <= i < |t| && out.1[i] != t[i] ==> t[i].id == id
    ensures out.0.Succeeded? ==> out.1 == Users.Update(t, enc, id, patch).value.1
  {
    match Users.Update(t, enc, id, patch)
    case Err(e) => (Failed(Service(e)), t)
    case Ok((u, t')) => (Succeeded("User updated successfully", u.id), t')
  }

  /** `DELETE /user/:id`: an administrator soft-deletes a user. */
  function DeleteUser(t: Users.UserTable, id: string): (out: (Reply, Users.UserTable))
    ensures out.0 == Failed(Service(UserNotFound)) <==> forall u :: u in t ==> u.id != id
    ensures out.0.Failed? ==> out.1 == t
    ensures out.0.Succeeded? ==> out.0 == Succeeded("User deleted successfully", id)
    ensures out.0.Succeeded? ==> out.1 == Users.Delete(t, id).value.1
  {
    match Users.Delete(t, id)
    case Err(e) => (Failed(Service(e)), t)
    case Ok((u, t')) => (Succeeded("User deleted successfully", u.id), t')
  }

  // ----- Restaurant controller -----

  /** `POST /restaurant`: the unvalidated body goes to the service as it is. */
  function CreateRestaurant(t: Restaurants.RestaurantTable, fields: Restaurants.RestaurantFields,
                            defaults: Restaurants.RestaurantDefaults)
    : (out: (Reply, Restaurants.RestaurantTable))
    requires forall x :: x in t ==> x.id != defaults.id
    ensures out.0.Failed? <==> !Restaurants.Complete(fields)
    ensures out.0.Failed? ==> out.0.failure == StoreRejected && out.1 == t
    ensures out.0.Succeeded? ==> out.0 == Succeeded("Restaurant created successfully", defaults.id)
    ensures out.0.Succeeded? ==> |out.1| == |t| + 1 && out.1[..|t|] == t
    ensures out.0.Succeeded? ==> out.1 == Restaurants.Create(t, fields, defaults).value.1
  {
    match Restaurants.Create(t, fields, defaults)
    case Err(e) => (Failed(e), t)
    case Ok((x, t')) => (Succeeded("Restaurant created successfully", x.id), t')
  }

  /** `PATCH /restaurant/:id`. */
  function UpdateRestaurant(t: Restaurants.RestaurantTable, id: string, fields: Restaurants.RestaurantFields)
    : (out: (Reply, Restaurants.RestaurantTable))
    ensures out.0 == Failed(Service(RestaurantNotFound)) <==> forall x :: x in t ==> x.id != id
    ensures out.0.Failed? ==> out.1 == t
    ensures out.0.Succeeded? ==> out.0 == Succeeded("Restaurant updated successfully", id)
    ensures out.0.Succeeded? ==> out.1 == Restaurants.Update(t, id, fields).value.1
  {
    match Restaurants.Update(t, id, fields)
    case Err(e) => (Failed(Service(e)), t)
    case Ok((x, t')) => (Succeeded("Restaurant updated successfully", x.id), t')
  }

  // ----- Review controller -----

  /** `GET /restaurant/:restaurantId/review`: `{success: true, data: summary}`. */
  datatype SummaryReply = SummaryReply(success: bool, data: Reviews.Summary)

  function ReviewSummary(t: Reviews.ReviewTable, restaurantId: string): (r: SummaryReply)
    ensures r.success
    ensures r.data.totalReviews == |Reviews.Counted(t, restaurantId)|
    ensures r.data == Reviews.FindForRestaurant(t, restaurantId)
  {
    SummaryReply(true, Reviews.FindForRestaurant(t, restaurantId))
  }

  /** `POST /restaurant/:restaurantId/review`: the review is the caller's, for the restaurant in the path. */
  function CreateReview(t: Reviews.ReviewTable, caller: Users.User, restaurantId: string, input: Reviews.NewReview,
                        defaults: Reviews.ReviewDefaults)
    : (out: (Reply, Reviews.ReviewTable))
    requires forall x :: x in t ==> x.id != defaults.id
    ensures out.0 == Succeeded("Review created successfully", defaults.id)
    ensures |out.1| == |t| + 1 && out.1[..|t|] == t
    ensures out.1[|t|].userId == caller.id && out.1[|t|].restaurantId == restaurantId
    ensures out.1 == Reviews.Create(t, caller.id, restaurantId, input, defaults).1
  {
    var (x, t') := Reviews.Create(t, caller.id, restaurantId, input, defaults);
    (Succeeded("Review created successfully", x.id), t')
  }

  /** Posting a review that is published by default adds one to the summary the restaurant's page shows. */
  lemma SummaryCountsPostedReview(t: Reviews.ReviewTable, caller: Users.User, restaurantId: string,
                                  input: Reviews.NewReview, defaults: Reviews.ReviewDefaults)
    requires forall x :: x in t ==> x.id != defaults.id
    requires defaults.status == Reviews.PUBLISHED
    ensures var t' := CreateReview(t, caller, restaurantId, input, defaults).1;
            ReviewSummary(t', restaurantId).data.totalReviews == ReviewSummary(t, restaurantId).data.totalReviews + 1
  {
    Reviews.CreatedReviewCounts(t, caller.id, restaurantId, input, defaults);
  }

  /** `PATCH /restaurant/:restaurantId/review/:id`: the review id alone selects the review. */
  function UpdateReview(t: Reviews.ReviewTable, id: string, fields: Reviews.ReviewFields)
    : (out: (Reply, Reviews.ReviewTable))
    ensures out.0 == Failed(Service(ReviewNotFound)) <==> forall x :: x in t ==> x.id != id
    ensures out.0.Failed? ==> out.1 == t
    ensures out.0.Succeeded? ==> out.0 == Succeeded("Review updated successfully", id)
    ensures out.0.Succeeded? ==> out.1 == Reviews.Update(t, id, fields).value.1
  {
    match Reviews.Update(t, id, fields)
    case Err(e) => (Failed(Service(e)), t)
    case Ok((x, t')) => (Succeeded("Review updated successfully", x.id), t')
  }

  /** `DELETE /restaurant/:restaurantId/review/:id`: soft delete. */
  function DeleteReview(t: Reviews.ReviewTable, id: string): (out: (Reply, Reviews.ReviewTable))
    ensures out.0 == Failed(Service(ReviewNotFound)) <==> forall x :: x in t ==> x.id != id
    ensures out.0.Failed? ==> out.1 == t
    ensures out.0.Succeeded? ==> out.0 == Succeeded("Review deleted successfully", id)
    ensures out.0.Succeeded? ==> out.1 == Reviews.Delete(t, id).value.1
  {
    match Reviews.Delete(t, id)
    case Err(e) => (Failed(Service(e)), t)
    case Ok((x, t')) => (Succeeded("Review deleted successfully", x.id), t')
  }

  /** A missing review id reaches the client as `success: false` with the message `REVIEW_NOT_FOUND`. */
  lemma MissingReviewMessage(t: Reviews.ReviewTable, id: string)
    requires forall x :: x in t ==> x.id != id
    ensures DeleteReview(t, id).0.Message() == Some("REVIEW_NOT_FOUND")
    ensures UpdateReview(t, id, Reviews.ReviewFields(None, None, None)).0.Message() == Some("REVIEW_NOT_FOUND")
  {
  }
}
