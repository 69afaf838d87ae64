/**
 * `POST /api/reviews`: the guards, the update-or-insert on the `reviews`
 * table and the reputation increment that follows an insert.
 */
module Reviews {
  import opened Common
  import opened Schema

  /** +5 reputation points and +1 review per new review. */
  const ReviewPoints := 5

  datatype Review = Review(
    id: Id,
    ecopointId: Id,
    userId: Id,
    rating: int,
    comment: Option<string>,
    visited: bool)

  /** The body: `rating` is `None` when missing (0 is falsy too), `comment`
      is `None` when missing, `visited` is false when missing. */
  datatype ReviewBody = ReviewBody(
    ecopointId: string,
    rating: Option<int>,
    comment: Option<string>,
    visited: bool)

  datatype Reason =
    | Unauthenticated
    | MissingFields
    | RatingOutOfRange
    | EcopointNotFound
    | NotValidated
    | UpdateFailed
    | InsertFailed

  /** The answer's status: 401 and 404 for their own refusals, 500 exactly
      when the write failed, and 400 otherwise. */
  function HttpStatus(r: Reason): (status: int)
    ensures status == 500 <==> r.UpdateFailed? || r.InsertFailed?
    ensures status == 401 <==> r.Unauthenticated?
    ensures status in {400, 401, 404, 500}
  {
    match r
    case Unauthenticated => 401
    case EcopointNotFound => 404
    case UpdateFailed | InsertFailed => 500
    case _ => 400
  }

  /** `comment?.trim() || null`. */
  function StoredComment(comment: Option<string>): (c: Option<string>)
    ensures c.Some? ==> comment.Some? && c.value == Trim(comment.value) && c.value != []
    ensures c.None? ==> comment.None? || IsBlank(comment.value)
    ensures c.Some? ==> !IsWhitespace(c.value[0]) && !IsWhitespace(c.value[|c.value| - 1])
  {
    match comment
    case None => None
    case Some(text) =>
      TrimHasNoOuterWhitespace(text);
      if Trim(text) == [] then None else Some(Trim(text))
  }

  /** The guards, in order, before the table is touched. */
  function Guard(caller: Option<Id>, body: ReviewBody, ecopoints: map<Id, Ecopoint>): (r: Option<Reason>)
    ensures caller.None? ==> r == Some(Unauthenticated)
    ensures caller.Some? && (body.ecopointId == "" || body.rating.None? || body.rating == Some(0)) ==>
              r == Some(MissingFields)
    ensures r.None? <==>
      caller.Some? && body.ecopointId != "" && body.rating.Some? && 1 <= body.rating.value <= 5
      && body.ecopointId in ecopoints && ecopoints[body.ecopointId].status == EcopointStatus.Validated
  {
    if caller.None? then Some(Unauthenticated)
    else if body.ecopointId == "" || body.rating.None? || body.rating.value == 0 then Some(MissingFields)
    else if body.rating.value < 1 || body.rating.value > 5 then Some(RatingOutOfRange)
    else if body.ecopointId !in ecopoints then Some(EcopointNotFound)
    else if ecopoints[body.ecopointId].status != EcopointStatus.Validated then Some(NotValidated)
    else None
  }

  /** Past authentication and the field check, a rating outside 1..5 gives
      400, then a missing ecopoint 404 and a non-validated one 400. */
  lemma GuardOrder(caller: Id, body: ReviewBody, ecopoints: map<Id, Ecopoint>)
    requires body.ecopointId != "" && body.rating.Some? && body.rating.value != 0
    ensures (body.rating.value < 1 || body.rating.value > 5) ==>
      Guard(Some(caller), body, ecopoints) == Some(RatingOutOfRange)
    ensures 1 <= body.rating.value <= 5 && body.ecopointId !in ecopoints ==>
      Guard(Some(caller), body, ecopoints) == Some(EcopointNotFound)
    ensures 1 <= body.rating.value <= 5 && body.ecopointId in ecopoints
            && ecopoints[body.ecopointId].status != EcopointStatus.Validated ==>
      Guard(Some(caller), body, ecopoints) == Some(NotValidated)
  {
  }

  /** At most one review per (user, ecopoint), and distinct ids. */
  predicate OneReviewPerUser(reviews: seq<Review>) {
    forall i, j :: 0 <= i < j < |reviews| ==>
      reviews[i].id != reviews[j].id
      && (reviews[i].ecopointId != reviews[j].ecopointId || reviews[i].userId != reviews[j].userId)
  }

  function FindReview(reviews: seq<Review>, ecopointId: Id, userId: Id): (k: Option<nat>)
    ensures k.Some? ==> k.value < |reviews| && reviews[k.value].ecopointId == ecopointId
                        && reviews[k.value].userId == userId
    ensures k.None? ==> forall i :: 0 <= i < |reviews| ==>
                          reviews[i].ecopointId != ecopointId || reviews[i].userId != userId
  {
    if reviews == [] then None
    else if reviews[|reviews| - 1].ecopointId == ecopointId && reviews[|reviews| - 1].userId == userId
    then Some(|reviews| - 1)
    else FindReview(reviews[..|reviews| - 1], ecopointId, userId)
  }

  datatype Response = Updated(reviewId: Id) | Inserted(review: Review) | Refused(reason: Reason)

  class ReviewTable {
    var reviews: seq<Review>
    var reputationCalls: seq<ReputationIncrement>

    ghost predicate Valid()
      reads this
    {
      OneReviewPerUser(reviews)
    }

    constructor ()
      ensures Valid() && reviews == [] && reputationCalls == []
    {
      reviews := [];
      reputationCalls := [];
    }

    /** The handler. A review of the caller for the ecopoint that the lookup
        reports is rewritten in place (id, ecopoint and user kept) without
        touching reputation; otherwise one review is appended and +5 points
        / +1 review is requested. A failed write changes nothing. The
        lookup keeps only its `data`, so a failed query (`lookupSucceeds`
        false) reads as "no review"; the invariant is kept whenever the
        lookup succeeds. */
    method Submit(caller: Option<Id>, body: ReviewBody, ecopoints: map<Id, Ecopoint>,
                  lookupSucceeds: bool, writeSucceeds: bool, newId: Id) returns (resp: Response)
      requires forall i :: 0 <= i < |reviews| ==> reviews[i].id != newId
      modifies this
      ensures old(Valid()) && lookupSucceeds ==> Valid()
      ensures Guard(caller, body, ecopoints).Some? ==>
        resp == Refused(Guard(caller, body, ecopoints).value)
        && reviews == old(reviews) && reputationCalls == old(reputationCalls)
      ensures Guard(caller, body, ecopoints).None? && !writeSucceeds ==>
        resp == Refused(if ExistingReview(old(reviews), body.ecopointId, caller.value, lookupSucceeds).Some?
                        then UpdateFailed else InsertFailed)
        && reviews == old(reviews) && reputationCalls == old(reputationCalls)
      ensures resp.Updated? ==>
        var k := ExistingReview(old(reviews), body.ecopointId, caller.value, lookupSucceeds);
        k.Some? && resp.reviewId == old(reviews)[k.value].id
        && reviews == old(reviews)[k.value := old(reviews)[k.value].(
             rating := body.rating.value, comment := StoredComment(body.comment), visited := body.visited)]
        && reputationCalls == old(reputationCalls)
      ensures resp.Inserted? ==>
        ExistingReview(old(reviews), body.ecopointId, caller.value, lookupSucceeds).None?
        && resp.review == Review(newId, body.ecopointId, caller.value, body.rating.value,
                                 StoredComment(body.comment), body.visited)
        && reviews == old(reviews) + [resp.review]
        && reputationCalls == old(reputationCalls) + [ReputationIncrement(caller.value, ReviewPoints, 0, 1)]
      ensures Guard(caller, body, ecopoints).None? && writeSucceeds ==> !resp.Refused?
    {
      var refusal := Guard(caller, body, ecopoints);
      if refusal.Some? {
        return Refused(refusal.value);
      }
      var user := caller.value;
      var existing := ExistingReview(reviews, body.ecopointId, user, lookupSucceeds);
      match existing
      case Some(k) =>
        if !writeSucceeds {
          return Refused(UpdateFailed);
        }
        var r := reviews[k].(rating := body.rating.value, comment := StoredComment(body.comment),
                             visited := body.visited);
        reviews := reviews[k := r];
        resp := Updated(r.id);
      case None =>
        if !writeSucceeds {
          return Refused(InsertFailed);
        }
        var r := Review(newId, body.ecopointId, user, body.rating.value, StoredComment(body.comment), body.visited);
        if lookupSucceeds && Valid() {
          SuccessfulLookupFinds(reviews, body.ecopointId, user);
        }
        reviews := reviews + [r];
        reputationCalls := reputationCalls + [ReputationIncrement(user, ReviewPoints, 0, 1)];
        resp := Inserted(r);
    }
  }

  /** Number of reviews by `user` for `ecopoint`. */
  function ReviewsBy(reviews: seq<Review>, ecopointId: Id, userId: Id): nat {
    if reviews == [] then 0
    else ReviewsBy(reviews[..|reviews| - 1], ecopointId, userId)
         + (if reviews[|reviews| - 1].ecopointId == ecopointId && reviews[|reviews| - 1].userId == userId then 1 else 0)
  }

  /** What the `maybeSingle` lookup reports: the pair's review when its
      query succeeds and exactly one row matches; nothing when the query
      fails or two or more rows match, since the handler drops the error. */
  function ExistingReview(reviews: seq<Review>, ecopointId: Id, userId: Id, lookupSucceeds: bool): (k: Option<nat>)
    ensures k.Some? ==> k == FindReview(reviews, ecopointId, userId)
    ensures !lookupSucceeds ==> k.None?
  {
    if lookupSucceeds && ReviewsBy(reviews, ecopointId, userId) == 1
    then FindReview(reviews, ecopointId, userId)
    else None
  }

  /** Under the invariant a successful lookup reports exactly what is there. */
  lemma SuccessfulLookupFinds(reviews: seq<Review>, ecopointId: Id, userId: Id)
    requires OneReviewPerUser(reviews)
    ensures ExistingReview(reviews, ecopointId, userId, true) == FindReview(reviews, ecopointId, userId)
  {
    AtMostOneReview(reviews, ecopointId, userId);
    FoundCounts(reviews, ecopointId, userId);
    ZeroWhenAbsent(reviews, ecopointId, userId);
  }

  /** A failed lookup makes a second review: the caller's existing review is
      not reported, so the handler appends another one for the same pair
      (with a second reputation request), breaking the invariant. */
  lemma FailedLookupDuplicatesReview(reviews: seq<Review>, r: Review)
    requires FindReview(reviews, r.ecopointId, r.userId).Some?
    ensures ExistingReview(reviews, r.ecopointId, r.userId, false).None?
    ensures !OneReviewPerUser(reviews + [r])
  {
    var k := FindReview(reviews, r.ecopointId, r.userId).value;
    var all := reviews + [r];
    assert all[k] == reviews[k] && all[|reviews|] == r;
  }

  /** A review the lookup finds is counted. */
  lemma {:induction false} FoundCounts(reviews: seq<Review>, ecopointId: Id, userId: Id)
    ensures FindReview(reviews, ecopointId, userId).Some? ==> ReviewsBy(reviews, ecopointId, userId) >= 1
  {
    if reviews != [] {
      FoundCounts(reviews[..|reviews| - 1], ecopointId, userId);
    }
  }

  /** Under the invariant each (user, ecopoint) pair has at most one
      review, so a successful `maybeSingle` lookup finds it whenever it
      exists. */
  lemma {:induction false} AtMostOneReview(reviews: seq<Review>, ecopointId: Id, userId: Id)
    requires OneReviewPerUser(reviews)
    ensures ReviewsBy(reviews, ecopointId, userId) <= 1
  {
    if reviews != [] {
      var init := reviews[..|reviews| - 1];
      var last := reviews[|reviews| - 1];
      assert OneReviewPerUser(init) by {
        forall i, j | 0 <= i < j < |init| ensures init[i] == reviews[i] && init[j] == reviews[j] { }
      }
      AtMostOneReview(init, ecopointId, userId);
      if last.ecopointId == ecopointId && last.userId == userId {
        NoneBy(init, ecopointId, userId, last, reviews);
      }
    }
  }

  lemma {:induction false} NoneBy(init: seq<Review>, ecopointId: Id, userId: Id, last: Review, reviews: seq<Review>)
    requires reviews == init + [last] && OneReviewPerUser(reviews)
    requires last.ecopointId == ecopointId && last.userId == userId
    ensures ReviewsBy(init, ecopointId, userId) == 0
  {
    ZeroWhenAbsent(init, ecopointId, userId);
    forall i | 0 <= i < |init| ensures init[i].ecopointId != ecopointId || init[i].userId != userId {
      assert init[i] == reviews[i] && last == reviews[|init|];
    }
  }

  lemma {:induction false} ZeroWhenAbsent(reviews: seq<Review>, ecopointId: Id, userId: Id)
    ensures (forall i :: 0 <= i < |reviews| ==> reviews[i].ecopointId != ecopointId || reviews[i].userId != userId)
            ==> ReviewsBy(reviews, ecopointId, userId) == 0
  {
    if reviews != [] {
      var init := reviews[..|reviews| - 1];
      assert forall i :: 0 <= i < |init| ==> init[i] == reviews[i];
      ZeroWhenAbsent(init, ecopointId, userId);
    }
  }
}
