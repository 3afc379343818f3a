/**
 * The review handlers: submitting a review, the delete-confirmation page and the
 * deletion itself. Deleting is gated on ownership: only the logged-in account that
 * wrote a review is shown the confirmation and can delete it. A handler that throws
 * (a failed store read, a missing login) returns the error, which the error handler
 * renders; nothing after the throw happens.
 */
module ReviewController {
  import opened Wrappers
  import opened Js
  import opened Http
  import opened Stores

  const SubmitRejectedNotice := "Review submission failed. Please check your entries."
  const SubmittedNotice := "Review submitted successfully."
  const SubmitFailedNotice := "Sorry, review submission failed."
  const ReviewNotFoundNotice := "Review not found."
  const DeleteDeniedViewNotice := "Access Denied. You can only delete your own reviews."
  const DeleteDeniedNotice := "Deletion failed: Authorization denied or review not found."
  const DeletedNotice := "Review was successfully deleted."
  const DeleteFailedNotice := "Review deletion failed (Server error)."

  /** The handler a rejected submission is handed to: the vehicle detail page. */
  const DetailHandler := "buildVehicleDetailView"

  /** `/inv/detail/<id>`, the vehicle detail page. */
  function DetailPath(invId: Value): string
  {
    "/inv/detail/" + ToStr(invId)
  }

  /** `errors && !errors.isEmpty()` on `res.locals.errors`: errors are pending when the
      validator's non-empty result is attached; a truthy value of another kind has no
      `isEmpty` and throws. */
  function PendingErrors(v: Value): (r: Result<bool, JsError>)
    ensures !Truthy(v) ==> r == Ok(false)
    ensures v.Errors? ==> r == Ok(v.list != [])
    ensures r.Err? <==> Truthy(v) && !v.Errors?
  {
    if !Truthy(v) then Ok(false)
    else if v.Errors? then Ok(v.list != [])
    else Err(TypeError("errors.isEmpty is not a function"))
  }

  /** What `checkReviewData` leaves in `res.locals.errors` is read back as pending exactly
      when the validator reported something. */
  lemma CheckedErrorsPending(errors: seq<FieldError>, before: map<string, Value>)
    requires "errors" !in before
    ensures var after := if errors == [] then before else before["errors" := Errors(errors)];
            PendingErrors(Field(after, "errors")) == Ok(errors != [])
  {
  }

  /** Whether a review belongs to the session's account: it exists and its
      `account_id` is strictly equal to the session's. */
  predicate Owns(review: Value, sessionId: Value)
  {
    Truthy(review) && StrictEquals(Get(review, "account_id").value, sessionId)
  }

  /** A missing review is owned by nobody, and an identifier that failed to parse (NaN)
      matches no owner. */
  lemma OwnershipNeedsReviewAndIdentity(review: Value, sessionId: Value)
    ensures !Truthy(review) ==> !Owns(review, sessionId)
    ensures sessionId == NaN ==> !Owns(review, sessionId)
    ensures (review.Obj? && "account_id" in review.fields && review.fields["account_id"] == sessionId
             && sessionId != NaN) ==> Owns(review, sessionId)
  {
  }

  /** `submitNewReview`. The session's account is read first. With pending errors the
      submitted text and rating are kept for re-display, the vehicle identifier becomes
      the route parameter, and the detail handler takes over; the store is not
      called. Otherwise exactly one insert is made, with the session's account as the
      author, and the handler redirects to the vehicle whatever the insert's outcome. */
  method SubmitNewReview(req: Request, res: Response, reviews: ReviewStore) returns (thrown: Option<JsError>)
    modifies req`params, req`flashes, res`locals, res`delegatedTo, res`statusCode, res`location, reviews`queries
    ensures var session := SessionAccountId(old(res.locals));
            var pending := PendingErrors(Field(old(res.locals), "errors"));
            && (session.Err? ==> thrown == Some(session.error))
            && (session.Ok? && pending.Err? ==> thrown == Some(pending.error))
            && (thrown.Some? ==> req.flashes == old(req.flashes) && reviews.queries == old(reviews.queries)
                                 && res.locals == old(res.locals) && req.params == old(req.params)
                                 && res.location == old(res.location) && res.delegatedTo == old(res.delegatedTo)
                                 && res.statusCode == old(res.statusCode))
    ensures var session := SessionAccountId(old(res.locals));
            (PendingErrors(Field(old(res.locals), "errors")) == Ok(true) && session.Ok?) ==>
              && thrown == None
              && req.flashes == old(req.flashes) + [FlashMessage("notice", SubmitRejectedNotice)]
              && res.locals == old(res.locals)["review_text" := BodyValue(req.body, "review_text")]
                                              ["review_rating" := BodyValue(req.body, "review_rating")]
              && req.params == old(req.params)["inv_id" := BodyValue(req.body, "inv_id")]
              && res.delegatedTo == Some(DetailHandler)
              && reviews.queries == old(reviews.queries)
              && res.location == old(res.location) && res.statusCode == old(res.statusCode)
    ensures var session := SessionAccountId(old(res.locals));
            var text := BodyValue(req.body, "review_text");
            var rating := BodyValue(req.body, "review_rating");
            var invId := BodyValue(req.body, "inv_id");
            (PendingErrors(Field(old(res.locals), "errors")) == Ok(false) && session.Ok?) ==>
              && thrown == None
              && reviews.queries == old(reviews.queries) + [InsertReview(text, rating, invId, session.value)]
              && req.flashes == old(req.flashes) + [FlashMessage("notice",
                   if Truthy(reviews.insertAnswer(text, rating, invId, session.value).GetOr(Null))
                   then SubmittedNotice else SubmitFailedNotice)]
              && res.statusCode == 302 && res.location == Some(DetailPath(invId))
              && res.locals == old(res.locals) && req.params == old(req.params)
              && res.delegatedTo == old(res.delegatedTo)
  {
    var reviewText := BodyValue(req.body, "review_text");
    var reviewRating := BodyValue(req.body, "review_rating");
    var invId := BodyValue(req.body, "inv_id");
    var session := SessionAccountId(res.locals);
    if session.Err? {
      return Some(session.error);
    }
    var accountId := session.value;
    var pending := PendingErrors(Field(res.locals, "errors"));
    if pending.Err? {
      return Some(pending.error);
    }
    if pending.value {
      req.Flash("notice", SubmitRejectedNotice);
      res.SetLocal("review_text", reviewText);
      res.SetLocal("review_rating", reviewRating);
      req.SetParam("inv_id", invId);
      res.Delegate(DetailHandler);
      return None;
    }
    var reviewResult := reviews.SubmitReview(reviewText, reviewRating, invId, accountId);
    if Truthy(reviewResult) {
      req.Flash("notice", SubmittedNotice);
    } else {
      req.Flash("notice", SubmitFailedNotice);
    }
    res.Redirect(DetailPath(invId));
    return None;
  }

  /** The confirmation view: the review's identifier, date, text and vehicle.
      `formatDate` is the `en-US` `toLocaleDateString`. */
  function DeleteConfirmView(review: Value, nav: string, formatDate: Value -> string): View
    requires review != Undefined && review != Null
  {
    View("review/delete-confirm", map[
      "title" := Str("Delete Review"),
      "nav" := Str(nav),
      "review_id" := Get(review, "review_id").value,
      "review_date" := Str(formatDate(Get(review, "review_date").value)),
      "review_text" := Get(review, "review_text").value,
      "inv_id" := Get(review, "inv_id").value,
      "errors" := Null])
  }

  /** `buildDeleteView`. A missing review sends the visitor to the account page; a
      review of another account sends them to that review's vehicle; only the owner is
      shown the confirmation. A review without a date throws when the date is
      formatted. */
  method BuildDeleteView(req: Request, res: Response, reviews: ReviewStore, nav: string, formatDate: Value -> string)
    returns (thrown: Option<JsError>)
    modifies req`flashes, res`statusCode, res`location, res`rendered, reviews`queries
    ensures var id := ParseIntValue(Field(req.params, "reviewId"));
            reviews.queries == old(reviews.queries) + [SelectReview(id)]
    ensures var read := ReviewRead(reviews.selectAnswer(ParseIntValue(Field(req.params, "reviewId"))));
            var session := SessionAccountId(res.locals);
            && (read.Err? ==> thrown == Some(read.error))
            && (read.Ok? && Truthy(read.value) && session.Err? ==> thrown == Some(session.error))
            && (read.Ok? && !Truthy(read.value) ==>
                  thrown == None && res.location == Some("/account/") && res.statusCode == 302
                  && req.flashes == old(req.flashes) + [FlashMessage("notice", ReviewNotFoundNotice)]
                  && res.rendered == old(res.rendered))
            && (read.Ok? && Truthy(read.value) && session.Ok? && !Owns(read.value, session.value) ==>
                  thrown == None && res.statusCode == 302
                  && res.location == Some(DetailPath(Get(read.value, "inv_id").value))
                  && req.flashes == old(req.flashes) + [FlashMessage("notice", DeleteDeniedViewNotice)]
                  && res.rendered == old(res.rendered))
    ensures var read := ReviewRead(reviews.selectAnswer(ParseIntValue(Field(req.params, "reviewId"))));
            var session := SessionAccountId(res.locals);
            res.rendered != old(res.rendered) ==>
              && read.Ok? && session.Ok? && Owns(read.value, session.value)
              && thrown == None && res.location == old(res.location) && req.flashes == old(req.flashes)
    ensures var read := ReviewRead(reviews.selectAnswer(ParseIntValue(Field(req.params, "reviewId"))));
            var session := SessionAccountId(res.locals);
            read.Ok? && session.Ok? && Owns(read.value, session.value) ==>
              var date := Get(read.value, "review_date").value;
              && (date == Undefined || date == Null ==> thrown.Some? && res.rendered == old(res.rendered))
              && (date != Undefined && date != Null ==>
                    thrown == None && res.rendered == Some(DeleteConfirmView(read.value, nav, formatDate)))
              && res.location == old(res.location) && req.flashes == old(req.flashes)
              && res.statusCode == old(res.statusCode)
    ensures thrown.Some? ==> res.location == old(res.location) && req.flashes == old(req.flashes)
                             && res.rendered == old(res.rendered) && res.statusCode == old(res.statusCode)
  {
    var reviewId := ParseIntValue(Field(req.params, "reviewId"));
    var read := reviews.GetReviewByReviewId(reviewId);
    if read.Err? {
      return Some(read.error);
    }
    var reviewData := read.value;
    if !Truthy(reviewData) {
      req.Flash("notice", ReviewNotFoundNotice);
      res.Redirect("/account/");
      return None;
    }
    var session := SessionAccountId(res.locals);
    if session.Err? {
      return Some(session.error);
    }
    if !StrictEquals(Get(reviewData, "account_id").value, session.value) {
      req.Flash("notice", DeleteDeniedViewNotice);
      res.Redirect(DetailPath(Get(reviewData, "inv_id").value));
      return None;
    }
    var date := Get(reviewData, "review_date").value;
    var dateRead := Get(date, "toLocaleDateString");
    if dateRead.Err? {
      return Some(dateRead.error);
    }
    var view := DeleteConfirmView(reviewData, nav, formatDate);
    res.Render(view.name, view.data);
    return None;
  }

  /** `deleteReview`. The review is read first; the delete query is made exactly when
      the review exists and belongs to the session's account. Every path that does not
      throw ends in a redirect to the vehicle named in the form. */
  method DeleteReview(req: Request, res: Response, reviews: ReviewStore) returns (thrown: Option<JsError>)
    modifies req`flashes, res`statusCode, res`location, reviews`queries
    ensures var id := ParseIntValue(BodyValue(req.body, "review_id"));
            var read := ReviewRead(reviews.selectAnswer(id));
            var session := SessionAccountId(res.locals);
            var authorized := read.Ok? && Truthy(read.value) && session.Ok? && Owns(read.value, session.value);
            reviews.queries == old(reviews.queries) + [SelectReview(id)] + (if authorized then [DeleteReviewRow(id)] else [])
    ensures var id := ParseIntValue(BodyValue(req.body, "review_id"));
            var read := ReviewRead(reviews.selectAnswer(id));
            var session := SessionAccountId(res.locals);
            && (read.Err? ==> thrown == Some(read.error))
            && (read.Ok? && Truthy(read.value) && session.Err? ==> thrown == Some(session.error))
            && (read.Ok? && (!Truthy(read.value) || (session.Ok? && !Owns(read.value, session.value))) ==>
                  thrown == None && req.flashes == old(req.flashes) + [FlashMessage("notice", DeleteDeniedNotice)])
            && (read.Ok? && session.Ok? && Owns(read.value, session.value) ==>
                  var deleted := reviews.deleteAnswer(id);
                  && (deleted.None? ==> thrown == Some(PlainError(ReviewDeleteFailed)))
                  && (deleted.Some? ==> thrown == None && req.flashes == old(req.flashes) + [FlashMessage("notice",
                        if deleted.value != 0 then DeletedNotice else DeleteFailedNotice)]))
    ensures thrown.None? ==> res.statusCode == 302 && res.location == Some(DetailPath(BodyValue(req.body, "inv_id")))
    ensures thrown.Some? ==> res.location == old(res.location) && req.flashes == old(req.flashes)
                             && res.statusCode == old(res.statusCode)
  {
    var reviewId := ParseIntValue(BodyValue(req.body, "review_id"));
    var invId := BodyValue(req.body, "inv_id");
    var read := reviews.GetReviewByReviewId(reviewId);
    if read.Err? {
      return Some(read.error);
    }
    var reviewData := read.value;
    var owned := false;
    if Truthy(reviewData) {
      var session := SessionAccountId(res.locals);
      if session.Err? {
        return Some(session.error);
      }
      owned := StrictEquals(Get(reviewData, "account_id").value, session.value);
    }
    if !owned {
      req.Flash("notice", DeleteDeniedNotice);
      res.Redirect(DetailPath(invId));
      return None;
    }
    var deleted := reviews.DeleteReview(reviewId);
    if deleted.Err? {
      return Some(deleted.error);
    }
    if deleted.value != 0 {
      req.Flash("notice", DeletedNotice);
    } else {
      req.Flash("notice", DeleteFailedNotice);
    }
    res.Redirect(DetailPath(invId));
    return None;
  }
}
