/**
 * The review service over a review table in storage order: the summary of
 * a restaurant's published reviews, its review list newest first, and the
 * create, update and soft-delete transitions.
 */
module Reviews {
  import opened Wrappers
  import opened Tables
  import opened Errors

  datatype ReviewStatus = PUBLISHED | DELETED

  datatype Review = Review(
    id: string,
    userId: string,
    restaurantId: string,
    rating: int,
    comment: string,
    dateOfVisit: int,
    status: ReviewStatus,
    createdAt: int)

  type ReviewTable = seq<Review>

  predicate IdsUnique(t: ReviewTable) {
    forall i, j :: 0 <= i < j < |t| ==> t[i].id != t[j].id
  }

  /** A review the summary and the list take into account for `restaurantId`. */
  predicate Counts(x: Review, restaurantId: string) {
    x.restaurantId == restaurantId && x.status == PUBLISHED
  }

  /** The PUBLISHED reviews of the restaurant, in storage order. */
  function Counted(t: ReviewTable, restaurantId: string): (r: seq<Review>)
    ensures forall x :: x in r <==> x in t && Counts(x, restaurantId)
  {
    Filter(t, (x: Review) => Counts(x, restaurantId))
  }

  function Rating(x: Review): int { x.rating }
  function Lowness(x: Review): int { -x.rating }
  function CreatedAt(x: Review): int { x.createdAt }

  /** Sum of the ratings. */
  function RatingSum(rs: seq<Review>): int {
    if |rs| == 0 then 0 else RatingSum(rs[..|rs| - 1]) + rs[|rs| - 1].rating
  }

  /** The mean rating, or nothing (`null`) when there is no review to average. */
  function Average(rs: seq<Review>): (r: Option<real>)
    ensures r.None? <==> |rs| == 0
  {
    if |rs| == 0 then None else Some(RatingSum(rs) as real / |rs| as real)
  }

  /** The summary `findForRestaurant` returns. */
  datatype Summary = Summary(
    averageRating: Option<real>,
    totalReviews: nat,
    highestReview: Option<Review>,
    lowestReview: Option<Review>,
    latest: Option<Review>)

  /**
   * `findForRestaurant`: count, mean, highest, lowest and newest of the
   * restaurant's PUBLISHED reviews; each "first" query returns the first
   * row in storage order among those with the extreme key.
   */
  function FindForRestaurant(t: ReviewTable, restaurantId: string): (s: Summary)
    ensures s.totalReviews == |Counted(t, restaurantId)|
    ensures s.averageRating == Average(Counted(t, restaurantId))
    ensures s.totalReviews == 0 <==> s.highestReview.None?
    ensures s.highestReview.None? <==> s.lowestReview.None?
    ensures s.highestReview.None? <==> s.latest.None?
    ensures s.highestReview.Some? ==>
              s.highestReview.value in t && Counts(s.highestReview.value, restaurantId)
              && forall x :: x in t && Counts(x, restaurantId) ==> x.rating <= s.highestReview.value.rating
    ensures s.lowestReview.Some? ==>
              s.lowestReview.value in t && Counts(s.lowestReview.value, restaurantId)
              && forall x :: x in t && Counts(x, restaurantId) ==> s.lowestReview.value.rating <= x.rating
    ensures s.latest.Some? ==>
              s.latest.value in t && Counts(s.latest.value, restaurantId)
              && forall x :: x in t && Counts(x, restaurantId) ==> x.createdAt <= s.latest.value.createdAt
  {
    var c := Counted(t, restaurantId);
    var lowest := MaxBy(c, Lowness);
    assert lowest.Some? ==> forall x :: x in c ==> Lowness(x) <= Lowness(lowest.value);
    Summary(Average(c), |c|, MaxBy(c, Rating), lowest, MaxBy(c, CreatedAt))
  }

  /** Every rating within [lo, hi] bounds the sum by n·lo and n·hi. */
  lemma {:induction false} RatingSumBounds(rs: seq<Review>, lo: int, hi: int)
    requires forall i :: 0 <= i < |rs| ==> lo <= rs[i].rating <= hi
    ensures |rs| * lo <= RatingSum(rs) <= |rs| * hi
  {
    if |rs| > 0 {
      var n := |rs| - 1;
      var init := rs[..n];
      assert forall i :: 0 <= i < |init| ==> init[i] == rs[i];
      RatingSumBounds(init, lo, hi);
      Distribute(n, lo);
      Distribute(n, hi);
    }
  }

  lemma Distribute(n: nat, k: int)
    ensures (n + 1) * k == n * k + k
  {
  }

  /** A mean of values within [lo, hi] lies within [lo, hi]. */
  lemma MeanWithin(sum: int, n: nat, lo: int, hi: int)
    requires n > 0 && n * lo <= sum <= n * hi
    ensures lo as real <= sum as real / n as real <= hi as real
  {
    var m := sum as real / n as real;
    var below := sum as real - lo as real * n as real;
    var above := hi as real * n as real - sum as real;
    assert m - lo as real == below / n as real;
    assert hi as real - m == above / n as real;
  }

  /**
   * The summary is consistent: the average lies between the lowest and the
   * highest rating, and when every counted rating is a valid star rating
   * (1 to 5) so does the average.
   */
  lemma SummaryConsistent(t: ReviewTable, restaurantId: string)
    requires FindForRestaurant(t, restaurantId).totalReviews > 0
    ensures var s := FindForRestaurant(t, restaurantId);
            s.averageRating.Some? && s.lowestReview.Some? && s.highestReview.Some?
            && s.lowestReview.value.rating as real <= s.averageRating.value <= s.highestReview.value.rating as real
    ensures (forall x :: x in t && Counts(x, restaurantId) ==> 1 <= x.rating <= 5) ==>
              1.0 <= FindForRestaurant(t, restaurantId).averageRating.value <= 5.0
  {
    var s := FindForRestaurant(t, restaurantId);
    var c := Counted(t, restaurantId);
    var lo := s.lowestReview.value.rating;
    var hi := s.highestReview.value.rating;
    assert forall i :: 0 <= i < |c| ==> c[i] in c;
    RatingSumBounds(c, lo, hi);
    MeanWithin(RatingSum(c), |c|, lo, hi);
    if forall x :: x in t && Counts(x, restaurantId) ==> 1 <= x.rating <= 5 {
      RatingSumBounds(c, 1, 5);
      MeanWithin(RatingSum(c), |c|, 1, 5);
    }
  }

  /** A DELETED review, wherever it sits in the table, changes nothing in the summary. */
  lemma DeletedNeverCounts(a: ReviewTable, d: Review, b: ReviewTable, restaurantId: string)
    requires d.status == DELETED
    ensures Counted(a + [d] + b, restaurantId) == Counted(a + b, restaurantId)
    ensures FindForRestaurant(a + [d] + b, restaurantId) == FindForRestaurant(a + b, restaurantId)
  {
    var p := (x: Review) => Counts(x, restaurantId);
    FilterAppend(a + [d], b, p);
    FilterAppend(a, [d], p);
    FilterAppend(a, b, p);
    assert Filter([d], p) == [];
  }

  /** `findAllForRestaurant`: the restaurant's PUBLISHED reviews, newest first. */
  function FindAllForRestaurant(t: ReviewTable, restaurantId: string): (r: seq<Review>)
    ensures SortedDesc(r, CreatedAt)
    ensures multiset(r) == multiset(Counted(t, restaurantId))
    ensures forall x :: x in r <==> x in t && Counts(x, restaurantId)
  {
    var c := Counted(t, restaurantId);
    var r := SortDesc(c, CreatedAt);
    assert forall x :: x in r <==> x in multiset(c);
    r
  }

  /** The newest review in the list is the summary's `latest`, up to equal timestamps. */
  lemma ListHeadIsLatest(t: ReviewTable, restaurantId: string)
    requires |FindAllForRestaurant(t, restaurantId)| > 0
    ensures FindForRestaurant(t, restaurantId).latest.Some?
    ensures FindAllForRestaurant(t, restaurantId)[0].createdAt == FindForRestaurant(t, restaurantId).latest.value.createdAt
  {
    var r := FindAllForRestaurant(t, restaurantId);
    var s := FindForRestaurant(t, restaurantId);
    assert r[0] in r;
    var l := s.latest.value;
    assert l in r;
    var k :| 0 <= k < |r| && r[k] == l;
    assert k == 0 || CreatedAt(r[0]) >= CreatedAt(r[k]);
  }

  /** `findOne`: the review with the id, whatever its restaurant and status. */
  function FindOne(t: ReviewTable, restaurantId: string, reviewId: string): (r: Option<Review>)
    ensures r.Some? ==> r.value in t && r.value.id == reviewId
    ensures r.None? <==> forall x :: x in t ==> x.id != reviewId
  {
    First(t, (x: Review) => x.id == reviewId)
  }

  /** The restaurant in the route does not restrict `findOne`. */
  lemma FindOneIgnoresRestaurant(t: ReviewTable, a: string, b: string, reviewId: string)
    ensures FindOne(t, a, reviewId) == FindOne(t, b, reviewId)
  {
  }

  /** The fields of a review body; on update an absent field leaves the column unchanged. */
  datatype ReviewFields = ReviewFields(rating: Option<int>, comment: Option<string>, dateOfVisit: Option<int>)

  /** The validated body of a new review. */
  datatype NewReview = NewReview(rating: int, comment: string, dateOfVisit: int)

  /** The schema defaults filled in on insert: an unused id, the initial status and the creation time. */
  datatype ReviewDefaults = ReviewDefaults(id: string, status: ReviewStatus, createdAt: int)

  /** `create`: insert the review by `userId` for `restaurantId` with the body's fields. */
  function Create(t: ReviewTable, userId: string, restaurantId: string, input: NewReview, defaults: ReviewDefaults)
    : (r: (Review, ReviewTable))
    requires forall x :: x in t ==> x.id != defaults.id
    ensures r.1 == t + [r.0]
    ensures r.0.id == defaults.id && r.0.userId == userId && r.0.restaurantId == restaurantId
    ensures r.0.rating == input.rating && r.0.comment == input.comment && r.0.dateOfVisit == input.dateOfVisit
    ensures r.0.status == defaults.status && r.0.createdAt == defaults.createdAt
  {
    var x := Review(defaults.id, userId, restaurantId, input.rating, input.comment, input.dateOfVisit,
                    defaults.status, defaults.createdAt);
    (x, t + [x])
  }

  /** A newly published review is counted in its restaurant's summary. */
  lemma CreatedReviewCounts(t: ReviewTable, userId: string, restaurantId: string, input: NewReview,
                            defaults: ReviewDefaults)
    requires forall x :: x in t ==> x.id != defaults.id
    requires defaults.status == PUBLISHED
    ensures var t' := Create(t, userId, restaurantId, input, defaults).1;
            FindForRestaurant(t', restaurantId).totalReviews == FindForRestaurant(t, restaurantId).totalReviews + 1
  {
    var (x, t') := Create(t, userId, restaurantId, input, defaults);
    var p := (y: Review) => Counts(y, restaurantId);
    FilterAppend(t, [x], p);
  }

  /** The record `update` writes: the stored one with the given fields replaced. */
  function Patched(x: Review, f: ReviewFields): Review {
    x.(rating := f.rating.GetOr(x.rating), comment := f.comment.GetOr(x.comment),
       dateOfVisit := f.dateOfVisit.GetOr(x.dateOfVisit))
  }

  /** `update`: change rating, comment and date of visit of the review with the id, whatever its status. */
  function Update(t: ReviewTable, id: string, fields: ReviewFields): (r: Result<(Review, ReviewTable), ServiceError>)
    ensures r.Err? <==> forall x :: x in t ==> x.id != id
    ensures r.Err? ==> r.error == ReviewNotFound
    ensures r.Ok? ==>
              exists i :: 0 <= i < |t| && t[i].id == id
                && r.value.1 == t[i := r.value.0]
                && r.value.0 == Patched(t[i], fields)
    ensures r.Ok? ==> r.value.0.id == id
  {
    match FirstIndex(t, (x: Review) => x.id == id)
    case None => Err(ReviewNotFound)
    case Some(i) =>
      var x := Patched(t[i], fields);
      Ok((x, t[i := x]))
  }

  /** An update keeps who wrote the review, for which restaurant, its status and creation time. */
  lemma UpdateKeepsOwnership(t: ReviewTable, id: string, fields: ReviewFields)
    requires Update(t, id, fields).Ok?
    ensures exists i :: 0 <= i < |t| && t[i].id == id
              && var x := Update(t, id, fields).value.0;
                 x.userId == t[i].userId && x.restaurantId == t[i].restaurantId
                 && x.status == t[i].status && x.createdAt == t[i].createdAt
  {
  }

  /** `delete`: soft-delete the review with the id, whatever its status. */
  function Delete(t: ReviewTable, id: string): (r: Result<(Review, ReviewTable), ServiceError>)
    ensures r.Err? <==> forall x :: x in t ==> x.id != id
    ensures r.Err? ==> r.error == ReviewNotFound
    ensures r.Ok? ==>
              exists i :: 0 <= i < |t| && t[i].id == id
                && r.value.0 == t[i].(status := DELETED) && r.value.1 == t[i := r.value.0]
  {
    match FirstIndex(t, (x: Review) => x.id == id)
    case None => Err(ReviewNotFound)
    case Some(i) =>
      var x := t[i].(status := DELETED);
      Ok((x, t[i := x]))
  }

  /** After a delete the review no longer counts for any restaurant, and is still found by id. */
  lemma DeleteRemovesFromSummary(t: ReviewTable, id: string, restaurantId: string)
    requires IdsUnique(t)
    requires Delete(t, id).Ok?
    ensures forall x :: x in Counted(Delete(t, id).value.1, restaurantId) ==> x.id != id
    ensures FindOne(Delete(t, id).value.1, restaurantId, id).Some?
  {
    var r := Delete(t, id);
    var i :| 0 <= i < |t| && t[i].id == id
      && r.value.0 == t[i].(status := DELETED) && r.value.1 == t[i := r.value.0];
    var t' := r.value.1;
    forall x | x in Counted(t', restaurantId) ensures x.id != id {
      var k :| 0 <= k < |t'| && t'[k] == x;
      if k != i {
        assert t'[k] == t[k];
      }
    }
    assert t'[i] in t';
  }
}
