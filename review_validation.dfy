/**
 * Validation of the review form: the review text is trimmed and must keep five
 * characters; the rating, read as submitted (it is not trimmed), must be an integer
 * from 1 to 5. The check middleware always continues the chain, attaching the errors
 * to `res.locals` when there are any; the review controller re-renders.
 */
module ReviewValidation {
  import opened Text
  import opened Js
  import opened Chains
  import opened Http

  const ReviewTextTooShort := "Review text must be at least 5 characters long."
  const RatingInvalid := "A rating between 1 and 5 is required."

  /** The validators of `reviewRules()`, in order: the field each reads and its message. */
  const ReviewSlots := [("review_text", ReviewTextTooShort), ("review_rating", RatingInvalid)]

  /** Whether the validators pass, read on the body after the text has been trimmed. */
  function ReviewOutcomes(fields: map<string, string>): (r: seq<bool>)
    ensures |r| == |ReviewSlots|
  {
    [LengthAtLeast(FieldText(fields, "review_text"), 5), IsIntBetween(FieldText(fields, "review_rating"), 1, 5)]
  }

  /** `reviewRules()`: trim the text and require five characters; require the rating, as
      submitted, to be an integer from 1 to 5. */
  function ReviewRules(body: map<string, string>): (r: Validated)
    ensures r.body == TrimmedBody(body, "review_text")
    ensures |r.errors| <= 2
  {
    var fields := TrimmedBody(body, "review_text");
    Validated(fields, Run(Table(ReviewSlots, ReviewOutcomes(fields))))
  }

  /** Each message is reported exactly when its condition fails: the text on its trimmed
      form, the rating on the text as submitted; nothing is reported exactly when both hold. */
  lemma ReviewRulesMeaning(body: map<string, string>)
    ensures var r := ReviewRules(body);
            var rating := FieldText(body, "review_rating");
            && (Reported(r, "review_text", ReviewTextTooShort) <==> ValidatorLength(Trim(FieldText(body, "review_text"))) < 5)
            && (Reported(r, "review_rating", RatingInvalid) <==> !IsIntBetween(rating, 1, 5))
            && (r.errors == [] <==> ValidatorLength(Trim(FieldText(body, "review_text"))) >= 5 && IsIntBetween(rating, 1, 5))
  {
    var fields := TrimmedBody(body, "review_text");
    var outcomes := ReviewOutcomes(fields);
    assert FieldText(fields, "review_text") == Trim(FieldText(body, "review_text")) by {
      if "review_text" !in body {
        assert Trim("") == "";
      }
    }
    assert FieldText(fields, "review_rating") == FieldText(body, "review_rating");
    TableReports(ReviewSlots, outcomes, 0, "review_text", ReviewTextTooShort);
    TableReports(ReviewSlots, outcomes, 1, "review_rating", RatingInvalid);
    TableEmpty(ReviewSlots, outcomes);
    assert (forall i :: 0 <= i < |outcomes| ==> outcomes[i]) <==> outcomes[0] && outcomes[1];
  }

  /** Every rating from 1 to 5, written as digits, is accepted. */
  lemma RatingInRangeAccepted(body: map<string, string>, n: int)
    requires 1 <= n <= 5 && "review_rating" in body && body["review_rating"] == IntToString(n)
    ensures !Reported(ReviewRules(body), "review_rating", RatingInvalid)
  {
    IntToStringRoundTrip(n);
    ReviewRulesMeaning(body);
  }

  /** A rating outside 1 to 5 is rejected. */
  lemma RatingOutOfRangeRejected(body: map<string, string>, n: int)
    requires (n < 1 || n > 5) && "review_rating" in body && body["review_rating"] == IntToString(n)
    ensures Reported(ReviewRules(body), "review_rating", RatingInvalid)
  {
    IntToStringRoundTrip(n);
    ReviewRulesMeaning(body);
  }

  /** The rating is not trimmed: a rating with whitespace around it is rejected, and so is
      a missing one. */
  lemma PaddedOrMissingRatingRejected(body: map<string, string>)
    requires "review_rating" !in body || (body["review_rating"] != [] && (IsWhitespace(body["review_rating"][0])
                                          || IsWhitespace(body["review_rating"][|body["review_rating"]| - 1])))
    ensures Reported(ReviewRules(body), "review_rating", RatingInvalid)
  {
    ReviewRulesMeaning(body);
  }

  /** `checkReviewData`: the chain always continues; when there are errors they are first
      attached as `res.locals.errors` for the controller. */
  method CheckReviewData(req: Request, res: Response)
    modifies res`locals, res`nextCalled
    ensures res.nextCalled
    ensures req.errors == [] ==> res.locals == old(res.locals)
    ensures req.errors != [] ==> res.locals == old(res.locals)["errors" := Errors(req.errors)]
  {
    if req.errors == [] {
      res.Next();
      return;
    }
    res.SetLocal("errors", Errors(req.errors));
    res.Next();
  }
}
