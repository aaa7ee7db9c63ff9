/** The rating moderation screen's decision rules: which actions each
    rating offers, the per-status counters, the star strip and the status
    filter it sends with the rating list request. */
module RatingModeration {
  import opened Tables
  import opened Records
  import RatingsRoute
  import ModerateRatingRoute
  import Database

  datatype ModerationAction = Delete | Approve | Reject
  {
    /** The `action` the screen posts for approve and reject. */
    function Name(): string
    {
      match this
      case Delete => "delete"
      case Approve => "approve"
      case Reject => "reject"
    }
  }

  /** The buttons of a rating's row: delete always, approve and reject only
      while the rating is pending. */
  function OfferedActions(status: RatingStatus): (r: seq<ModerationAction>)
    ensures Delete in r
    ensures Approve in r <==> status == RatingPending
    ensures Reject in r <==> status == RatingPending
  {
    [Delete] + (if status == RatingPending then [Approve, Reject] else [])
  }

  /** Moderating as the screen offers it, a pending rating approved or
      rejected, never gives a booking a second live rating. */
  lemma {:induction false} OfferedModerationKeepsOneLive(rs: seq<Rating>, i: nat,
                                                          action: ModerationAction, now: int)
    requires i < |rs| && action in OfferedActions(rs[i].status) && action != Delete
    requires RatingsRoute.OneLivePerBooking(rs)
    ensures ModerateRatingRoute.ActionStatus(action.Name()).Some?
    ensures RatingsRoute.OneLivePerBooking(
      rs[i := rs[i].(status := ModerateRatingRoute.ActionStatus(action.Name()).value, updatedAt := now)])
  {
    var x := rs[i].(status := ModerateRatingRoute.ActionStatus(action.Name()).value, updatedAt := now);
    var ms := rs[i := x];
    forall a, b | 0 <= a < b < |ms| && ms[a].bookingId == ms[b].bookingId
      ensures !RatingsRoute.IsLive(ms[a]) || !RatingsRoute.IsLive(ms[b])
    {
      assert RatingsRoute.IsLive(ms[a]) ==> RatingsRoute.IsLive(rs[a]);
      assert RatingsRoute.IsLive(ms[b]) ==> RatingsRoute.IsLive(rs[b]);
    }
  }

  /** The server itself has no such guard: approving a rejected rating of a
      booking that has since been rated again leaves two live ratings. */
  lemma ServerApprovalCanBreakOneLive()
    ensures var older := Rating("r1", "b1", "Ani", "Mandi Biasa", 2, "kurang", Rejected, 0, 0);
            var newer := Rating("r2", "b1", "Ani", "Mandi Biasa", 5, "mantap", RatingPending, 1, 1);
      && RatingsRoute.OneLivePerBooking([older, newer])
      && ModerateRatingRoute.ActionStatus("approve") == Some(Approved)
      && !RatingsRoute.OneLivePerBooking([older.(status := Approved, updatedAt := 2), newer])
  {
    var older := Rating("r1", "b1", "Ani", "Mandi Biasa", 2, "kurang", Rejected, 0, 0);
    var newer := Rating("r2", "b1", "Ani", "Mandi Biasa", 5, "mantap", RatingPending, 1, 1);
    var after := [older.(status := Approved, updatedAt := 2), newer];
    assert after[0].bookingId == after[1].bookingId;
    assert RatingsRoute.IsLive(after[0]) && RatingsRoute.IsLive(after[1]);
  }

  /** `ratings.filter(r => r.status === status).length`. */
  function CountStatus(rs: seq<Rating>, status: RatingStatus): (c: nat)
    ensures c <= |rs|
    ensures c == 0 <==> forall k :: 0 <= k < |rs| ==> rs[k].status != status
  {
    if rs == [] then 0
    else
      var c := CountStatus(rs[1..], status);
      assert forall k :: 1 <= k < |rs| ==> rs[k] == rs[1..][k - 1];
      (if rs[0].status == status then 1 else 0) + c
  }

  /** A card shows how many ratings the list filtered by its status would
      hold. */
  lemma {:induction false} CardCountsFilteredList(rs: seq<Rating>, status: RatingStatus)
    ensures CountStatus(rs, status) == |Database.RatingsByStatus(rs, status.Name())|
  {
    FilteredLengthStep(rs, status.Name());
    if rs != [] {
      CardCountsFilteredList(rs[1..], status);
      assert (rs[0].status.Name() == status.Name()) == (rs[0].status == status);
    }
  }

  /** How the length of the filtered list grows with one more rating. */
  lemma FilteredLengthStep(rs: seq<Rating>, name: string)
    ensures rs == [] ==> |Database.RatingsByStatus(rs, name)| == 0
    ensures rs != [] ==>
      |Database.RatingsByStatus(rs, name)| ==
      (if rs[0].status.Name() == name then 1 else 0) + |Database.RatingsByStatus(rs[1..], name)|
  {
    var r := Database.RatingsByStatus(rs, name);
    if rs == [] {
      forall x: Rating ensures multiset(r)[x] == 0 {
        assert multiset(r)[x] == if x.status.Name() == name then multiset(rs)[x] else 0;
      }
      assert multiset(r) == multiset{};
    } else {
      var t := Database.RatingsByStatus(rs[1..], name);
      var head: multiset<Rating> := if rs[0].status.Name() == name then multiset{rs[0]} else multiset{};
      assert rs == [rs[0]] + rs[1..];
      assert multiset(rs) == multiset{rs[0]} + multiset(rs[1..]);
      forall x: Rating ensures multiset(r)[x] == (head + multiset(t))[x] {
        assert multiset(r)[x] == if x.status.Name() == name then multiset(rs)[x] else 0;
        assert multiset(t)[x] == if x.status.Name() == name then multiset(rs[1..])[x] else 0;
      }
      assert multiset(r) == head + multiset(t);
    }
  }

  /** Every rating is counted by exactly one of the three cards. */
  lemma {:induction false} CountsPartition(rs: seq<Rating>)
    ensures CountStatus(rs, RatingPending) + CountStatus(rs, Approved) + CountStatus(rs, Rejected) == |rs|
  {
    if rs != [] {
      CountsPartition(rs[1..]);
    }
  }

  /** `renderStars`: five stars, the first `rating` of them filled. */
  function RenderStars(rating: int): (stars: seq<bool>)
    ensures |stars| == 5
    ensures forall k :: 0 <= k < 5 ==> (stars[k] <==> k < rating)
  {
    seq(5, k => k < rating)
  }

  function CountFilled(stars: seq<bool>): (c: nat)
    ensures c <= |stars|
  {
    if stars == [] then 0 else (if stars[0] then 1 else 0) + CountFilled(stars[1..])
  }

  /** Exactly min(rating, 5) stars are filled, and none for a rating
      below 1. */
  lemma FilledStars(rating: int)
    ensures CountFilled(RenderStars(rating)) == if rating < 0 then 0 else if rating > 5 then 5 else rating
  {
    var s := RenderStars(rating);
    assert s[5..] == [];
    assert CountFilled(s[4..]) == if 4 < rating then 1 else 0;
    assert CountFilled(s[3..]) == (if 3 < rating then 1 else 0) + CountFilled(s[4..]);
    assert CountFilled(s[2..]) == (if 2 < rating then 1 else 0) + CountFilled(s[3..]);
    assert CountFilled(s[1..]) == (if 1 < rating then 1 else 0) + CountFilled(s[2..]);
    assert CountFilled(s) == (if 0 < rating then 1 else 0) + CountFilled(s[1..]);
  }

  /** The `status` parameter the server reads for a filter choice. */
  function StatusParam(filter: string): (s: string)
    ensures filter == "all" ==> s == ""
    ensures filter != "all" ==> s == filter
  {
    if filter != "all" then filter else ""
  }

  /** "all" lists every rating, any other filter the ratings of that
      status. */
  lemma FilterSelectsOnServer(rs: seq<Rating>, filter: string)
    ensures var r := ModerateRatingRoute.Get(rs, StatusParam(filter));
      && (filter == "all" ==> multiset(r.payload.ratings) == multiset(rs))
      && (filter != "all" && filter != "" ==>
            forall x :: x in r.payload.ratings <==> x in rs && x.status.Name() == filter)
  {
  }
}
