/** The guards of the customer's rating form: the star picker's values, the
    two checks `handleSubmit` makes before sending, the body it sends and
    the flags it sets when the reply arrives. */
module RatingForm {
  import opened Text
  import opened Validation
  import opened RatingsRoute

  /** The values the five star buttons set. */
  const STARS: seq<int> := [1, 2, 3, 4, 5]

  /** The rating after the customer has clicked the given stars in order:
      0 (the initial state) until a star is clicked, then the last star. */
  function RatingAfterClicks(clicks: seq<int>): (r: int)
    requires forall k :: 0 <= k < |clicks| ==> clicks[k] in STARS
    ensures clicks == [] <==> r == 0
    ensures clicks != [] ==> 1 <= r <= 5 && r == clicks[|clicks| - 1]
  {
    if clicks == [] then 0 else clicks[|clicks| - 1]
  }

  /** What pressing submit does. */
  datatype Submission = NoStars | ShortComment | Send(request: RatingRequest)

  /** `handleSubmit`'s guards: no stars picked, then a trimmed comment
      shorter than 10 UTF-16 code units (JavaScript's `length`); otherwise
      the body sent, with the comment trimmed. */
  function CheckSubmission(bookingId: string, customerName: string, rating: int, comment: string)
    : (s: Submission)
    ensures s == NoStars <==> rating == 0
    ensures s == ShortComment <==> rating != 0 && Utf16Length(Trim(comment)) < 10
    ensures s.Send? <==> rating != 0 && Utf16Length(Trim(comment)) >= 10
    ensures s.Send? ==>
      && s.request == RatingRequest(bookingId, customerName, rating, Trim(comment))
      && Utf16Length(s.request.comment) >= 10
      && |s.request.comment| >= 5
  {
    if rating == 0 then NoStars
    else if Utf16Length(Trim(comment)) < 10 then ShortComment
    else Send(RatingRequest(bookingId, customerName, rating, Trim(comment)))
  }

  /** The submit button is disabled while a request is in flight and while
      no star is picked. */
  predicate SubmitDisabled(isSubmitting: bool, rating: int)
    ensures !SubmitDisabled(isSubmitting, rating) ==>
      forall b, n, m :: CheckSubmission(b, n, rating, m) != NoStars
  {
    isSubmitting || rating == 0
  }

  /** The form's two flags. */
  datatype Flags = Flags(isSubmitting: bool, isSubmitted: bool)

  /** The flags once the reply has arrived: no longer submitting, and
      submitted only when the reply was a success. */
  function AfterReply(f: Flags, ok: bool): (g: Flags)
    ensures !g.isSubmitting
    ensures g.isSubmitted <==> f.isSubmitted || ok
  {
    Flags(false, f.isSubmitted || ok)
  }

  /** Whatever the form sends passes every validation step of the server,
      provided the booking and customer it was opened for are named. */
  lemma FormRequestPassesServerValidation(bookingId: string, customerName: string,
                                          clicks: seq<int>, comment: string)
    requires forall k :: 0 <= k < |clicks| ==> clicks[k] in STARS
    requires bookingId != "" && customerName != ""
    requires CheckSubmission(bookingId, customerName, RatingAfterClicks(clicks), comment).Send?
    ensures ValidRequest(CheckSubmission(bookingId, customerName, RatingAfterClicks(clicks), comment).request)
  {
    var req := CheckSubmission(bookingId, customerName, RatingAfterClicks(clicks), comment).request;
    RequiredFieldsPresent(req);
  }

  /** The 10-character minimum exists only here: the server accepts a
      two-character comment that the form refuses. */
  lemma CommentMinimumIsClientOnly()
    ensures CheckSubmission("b1", "Ani", 5, "ok") == ShortComment
    ensures ValidRequest(RatingRequest("b1", "Ani", 5, "ok"))
  {
    RequiredFieldsPresent(RatingRequest("b1", "Ani", 5, "ok"));
    TrimUnpadded("ok");
  }

  /** The boundary of the minimum: nine digits are refused ... */
  lemma NineCharactersRefused(comment: string)
    requires |comment| == 9
    requires forall k :: 0 <= k < |comment| ==> '0' <= comment[k] <= '9'
    ensures CheckSubmission("b1", "Ani", 4, comment) == ShortComment
  {
    TrimUnpadded(comment);
  }

  /** ... and ten are sent. */
  lemma TenCharactersSent(comment: string)
    requires |comment| == 10
    requires forall k :: 0 <= k < |comment| ==> '0' <= comment[k] <= '9'
    ensures CheckSubmission("b1", "Ani", 4, comment).Send?
  {
    TrimUnpadded(comment);
  }

  /** The minimum counts code units, as JavaScript does, not characters:
      an emoji outside the Basic Multilingual Plane has a `length` of two,
      so a comment of five such emoji, only five characters, is sent. */
  lemma AstralCharactersCountTwice(comment: string)
    requires |comment| == 5
    requires forall k :: 0 <= k < |comment| ==> comment[k] == '\U{1F44D}'
    ensures CheckSubmission("b1", "Ani", 5, comment).Send?
  {
    TrimUnpadded(comment);
  }
}
