/** /api/moderate-rating: POST approves or rejects a rating, whatever its
    current status; GET lists ratings for the moderation screen, all of
    them or those of one status. */
module ModerateRatingRoute {
  import opened Tables
  import opened Records
  import opened Database

  /** The two actions and the status each writes; any other action is
      refused. */
  function ActionStatus(action: string): (s: Option<RatingStatus>)
    ensures s == Some(Approved) <==> action == "approve"
    ensures s == Some(Rejected) <==> action == "reject"
    ensures s.None? <==> action != "approve" && action != "reject"
  {
    if action == "approve" then Some(Approved)
    else if action == "reject" then Some(Rejected)
    else None
  }

  /** The ratings table after a moderation: the first rating with the id
      takes the action's status and the moderation time; an empty id, an
      invalid action or an unknown id leave the table as it was. */
  function Moderated(rs: seq<Rating>, ratingId: string, action: string, now: int): (ms: seq<Rating>)
    ensures |ms| == |rs|
    ensures forall k :: 0 <= k < |rs| ==> ms[k].id == rs[k].id && ms[k].bookingId == rs[k].bookingId
    ensures ratingId == "" || ActionStatus(action).None? || IndexOf(rs, RatingKey, ratingId).None? ==>
      ms == rs
    ensures ratingId != "" && ActionStatus(action).Some? && IndexOf(rs, RatingKey, ratingId).Some? ==>
      var i := IndexOf(rs, RatingKey, ratingId).value;
      && ms[i].status == ActionStatus(action).value && ms[i].updatedAt == now
      && ms[i] == rs[i].(status := ms[i].status, updatedAt := now)
      && forall k :: 0 <= k < |rs| && k != i ==> ms[k] == rs[k]
  {
    if ratingId == "" || ActionStatus(action).None? then rs
    else
      match IndexOf(rs, RatingKey, ratingId)
      case None => rs
      case Some(i) => rs[i := rs[i].(status := ActionStatus(action).value, updatedAt := now)]
  }

  /** Moderating twice with the same id, action and time is moderating
      once: the rating is found at the same place and rewritten with the
      values it already holds. */
  lemma ModerationIdempotent(rs: seq<Rating>, ratingId: string, action: string, now: int)
    ensures IndexOf(Moderated(rs, ratingId, action, now), RatingKey, ratingId) ==
            IndexOf(rs, RatingKey, ratingId)
    ensures Moderated(Moderated(rs, ratingId, action, now), ratingId, action, now) ==
            Moderated(rs, ratingId, action, now)
  {
    var ms := Moderated(rs, ratingId, action, now);
    IndexOfSameKeys(rs, ms, RatingKey, ratingId);
  }

  method Post(db: Db, ratingId: string, action: string, now: int) returns (r: Response)
    requires db.Valid()
    modifies db
    ensures db.Valid()
    ensures db.bookings == old(db.bookings) && db.promos == old(db.promos)
    ensures ratingId == "" || action == "" ==>
      r == Response(400, Error("Rating ID and action are required")) && db.ratings == old(db.ratings)
    ensures ratingId != "" && action != "" && ActionStatus(action).None? ==>
      && r == Response(400, Error("Invalid action. Must be approve or reject"))
      && db.ratings == old(db.ratings)
    ensures ratingId != "" && ActionStatus(action).Some? &&
            IndexOf(old(db.ratings), RatingKey, ratingId).None? ==>
      r == Response(404, Error("Rating not found")) && db.ratings == old(db.ratings)
    // no precondition on the current status: only the status changes
    ensures ratingId != "" && ActionStatus(action).Some? &&
            IndexOf(old(db.ratings), RatingKey, ratingId).Some? ==>
      var i := IndexOf(old(db.ratings), RatingKey, ratingId).value;
      var x := old(db.ratings)[i].(status := ActionStatus(action).value, updatedAt := now);
      r == Response(200, OneRating(x)) && db.ratings == old(db.ratings)[i := x]
    ensures db.ratings == Moderated(old(db.ratings), ratingId, action, now)
  {
    if ratingId == "" || action == "" {
      return Response(400, Error("Rating ID and action are required"));
    }
    if action != "approve" && action != "reject" {
      return Response(400, Error("Invalid action. Must be approve or reject"));
    }
    var updated := db.UpdateRating(ratingId, if action == "approve" then Approved else Rejected, now);
    if updated.None? {
      return Response(404, Error("Rating not found"));
    }
    r := Response(200, OneRating(updated.value));
  }

  /** Repeating a moderation at the same instant gives the same reply and
      leaves the table as one moderation leaves it. */
  method ModerateTwice(db: Db, ratingId: string, action: string, now: int)
    returns (first: Response, second: Response)
    requires db.Valid()
    modifies db
    ensures first == second
    ensures db.ratings == Moderated(old(db.ratings), ratingId, action, now)
    ensures db.bookings == old(db.bookings) && db.promos == old(db.promos)
  {
    ModerationIdempotent(db.ratings, ratingId, action, now);
    first := Post(db, ratingId, action, now);
    second := Post(db, ratingId, action, now);
  }

  /** GET: all ratings, or those whose status is spelled `status`, newest
      first. */
  function Get(rs: seq<Rating>, status: string): (r: Response)
    ensures r.code == 200 && r.payload.Ratings?
    ensures SortedDesc(r.payload.ratings, RatingCreated)
    ensures status == "" ==> multiset(r.payload.ratings) == multiset(rs)
    ensures status != "" ==> forall x :: x in r.payload.ratings <==> x in rs && x.status.Name() == status
    ensures status != "" ==> forall x {:trigger multiset(r.payload.ratings)[x]} ::
      multiset(r.payload.ratings)[x] == if x.status.Name() == status then multiset(rs)[x] else 0
  {
    var found := if status != "" then RatingsByStatus(rs, status) else AllRatings(rs);
    SortDescOfSorted(found, RatingCreated);
    Response(200, Ratings(SortDesc(found, RatingCreated)))
  }
}
