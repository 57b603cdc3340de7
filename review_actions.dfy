/** The product-review store: the in-memory list of reviews with its id counter,
    the validation and insertion of a submitted review, the "helpful" counter and
    the per-product listing. */
module ReviewActions {
  import opened Common

  /** The fields of a review these operations read or write; the avatar path and
      the submission date are left out. */
  datatype Review = Review(id: int, productId: int, userId: int, userName: string,
                           rating: int, title: string, comment: string,
                           verified: bool, helpful: int)

  /** The submitted form: `formData.get(name)`, None where the field is absent. */
  datatype ReviewForm = ReviewForm(productId: Option<string>, rating: Option<string>,
                                   title: Option<string>, comment: Option<string>,
                                   userName: Option<string>, userEmail: Option<string>)

  /** The values of a form that passed validation. */
  datatype Submission = Submission(productId: int, rating: int, title: string,
                                   comment: string, userName: string, userEmail: string)

  datatype Validated = Accepted(submission: Submission) | Rejected(error: string)

  const AllFieldsRequired := "All fields are required"
  const RatingOutOfRange := "Rating must be between 1 and 5"
  /** The user id every new review is filed under. */
  const NewReviewUserId := 999

  /** `Number.parseInt(formData.get(name) as string)`: an absent field is `null`,
      which `parseInt` reads as the text "null". None stands for NaN. */
  function NumberField(v: Option<string>): Option<int> {
    ParseInt(if v.Some? then v.value else "null")
  }

  /** Truthiness of a parsed number (NaN and 0 are falsy). */
  predicate TruthyInt(n: Option<int>) {
    n.Some? && n.value != 0
  }

  /** Truthiness of a text field (null and "" are falsy). */
  predicate TruthyText(v: Option<string>) {
    v.Some? && v.value != ""
  }

  predicate RequiredPresent(form: ReviewForm) {
    && TruthyInt(NumberField(form.productId)) && TruthyInt(NumberField(form.rating))
    && TruthyText(form.title) && TruthyText(form.comment)
    && TruthyText(form.userName) && TruthyText(form.userEmail)
  }

  /** The two checks of `submitReview`, in order: every field present and truthy,
      then the rating between 1 and 5. */
  function ValidateReview(form: ReviewForm): (r: Validated)
    ensures r == Rejected(AllFieldsRequired) <==> !RequiredPresent(form)
    ensures r == Rejected(RatingOutOfRange) <==>
              RequiredPresent(form) && !(1 <= NumberField(form.rating).value <= 5)
    ensures r.Rejected? ==> r.error in {AllFieldsRequired, RatingOutOfRange}
    ensures r.Accepted? ==>
              && Some(r.submission.productId) == NumberField(form.productId)
              && Some(r.submission.rating) == NumberField(form.rating)
              && r.submission.productId != 0 && 1 <= r.submission.rating <= 5
              && Some(r.submission.title) == form.title && r.submission.title != ""
              && Some(r.submission.comment) == form.comment && r.submission.comment != ""
              && Some(r.submission.userName) == form.userName && r.submission.userName != ""
              && Some(r.submission.userEmail) == form.userEmail && r.submission.userEmail != ""
  {
    if !RequiredPresent(form) then Rejected(AllFieldsRequired)
    else
      var rating := NumberField(form.rating).value;
      if rating < 1 || rating > 5 then Rejected(RatingOutOfRange)
      else Accepted(Submission(NumberField(form.productId).value, rating, form.title.value,
                               form.comment.value, form.userName.value, form.userEmail.value))
  }

  /** The review built from an accepted submission: unverified, with no helpful
      votes, under the mock user id. */
  function NewReview(id: int, s: Submission): Review {
    Review(id, s.productId, NewReviewUserId, s.userName, s.rating, s.title, s.comment, false, 0)
  }

  /** A form whose numbers are decimal numerals and whose texts are non-empty is
      accepted with exactly those values when the rating is 1 to 5, and refused
      with the rating message when it is above 5. */
  lemma NumeralFormValidates(productId: nat, rating: nat, title: string, comment: string,
                             userName: string, userEmail: string)
    requires productId > 0 && rating > 0
    requires title != "" && comment != "" && userName != "" && userEmail != ""
    ensures var form := ReviewForm(Some(NatToString(productId)), Some(NatToString(rating)),
                                   Some(title), Some(comment), Some(userName), Some(userEmail));
            ValidateReview(form) == if rating <= 5
              then Accepted(Submission(productId, rating, title, comment, userName, userEmail))
              else Rejected(RatingOutOfRange)
  {
    ParseIntNumeral(productId);
    ParseIntNumeral(rating);
  }

  /** A rating of "0" is reported as a missing field, not as out of range, because
      0 is falsy. */
  lemma ZeroRatingIsMissing(form: ReviewForm)
    requires form.rating == Some("0")
    ensures ValidateReview(form) == Rejected(AllFieldsRequired)
  {
    ParseIntNumeral(0);
  }

  // ---------------------------------------------------------------------------
  // Spec functions on the list
  // ---------------------------------------------------------------------------

  function ReviewId(r: Review): int {
    r.id
  }

  /** `Math.max(...reviews.map(r => r.id))` of a non-empty list. */
  function MaxId(reviews: seq<Review>): (m: int)
    requires reviews != []
    ensures forall k :: 0 <= k < |reviews| ==> reviews[k].id <= m
    ensures exists k :: 0 <= k < |reviews| && reviews[k].id == m
  {
    if |reviews| == 1 then reviews[0].id
    else
      var m := MaxId(reviews[1..]);
      assert forall k :: 1 <= k < |reviews| ==> reviews[k] == reviews[1..][k - 1];
      if reviews[0].id >= m then reviews[0].id else m
  }

  predicate IdsBelow(reviews: seq<Review>, next: int) {
    forall k :: 0 <= k < |reviews| ==> reviews[k].id < next
  }

  predicate DistinctIds(reviews: seq<Review>) {
    forall j, k :: 0 <= j < k < |reviews| ==> reviews[j].id != reviews[k].id
  }

  /** Putting a review with the counter's id in front keeps every id below the
      incremented counter, and keeps ids distinct when they were. */
  lemma PrependFreshId(reviews: seq<Review>, next: int, review: Review)
    requires IdsBelow(reviews, next) && review.id == next
    ensures IdsBelow([review] + reviews, next + 1)
    ensures DistinctIds(reviews) ==> DistinctIds([review] + reviews)
  {
    var rs := [review] + reviews;
    assert forall k :: 1 <= k < |rs| ==> rs[k] == reviews[k - 1];
  }

  function ProductOf(review: Review): int {
    review.productId
  }

  /** `reviews.filter(review => review.productId === productId)`. */
  function ReviewsFor(reviews: seq<Review>, productId: int): (r: seq<Review>)
    ensures |r| <= |reviews|
    ensures forall x :: x in r <==> x in reviews && x.productId == productId
  {
    KeepKeyCount(reviews, ProductOf, productId);
    var r := KeepKey(reviews, ProductOf, productId);
    assert forall x :: x in r <==> multiset(r)[x] > 0;
    assert forall x :: x in reviews <==> multiset(reviews)[x] > 0;
    r
  }

  /** A review put in front is listed first for its product and changes no other
      product's listing. */
  lemma ReviewsForPrepend(review: Review, reviews: seq<Review>, productId: int)
    ensures ReviewsFor([review] + reviews, productId)
            == (if review.productId == productId then [review] else []) + ReviewsFor(reviews, productId)
  {
    assert ([review] + reviews)[1..] == reviews;
  }

  /** `reviews[reviewIndex].helpful += 1` on the list as a value: None when no
      review has the id. */
  function MarkHelpful(reviews: seq<Review>, reviewId: int): (r: Option<seq<Review>>)
    ensures r.None? <==> !HasKey(reviews, ReviewId, reviewId)
    ensures r.Some? ==> |r.value| == |reviews|
    ensures r.Some? ==> forall k :: 0 <= k < |reviews| ==>
              r.value[k] == (if k == FindKey(reviews, ReviewId, reviewId)
                             then reviews[k].(helpful := reviews[k].helpful + 1) else reviews[k])
  {
    var i := FindKey(reviews, ReviewId, reviewId);
    if i == -1 then None else Some(reviews[i := reviews[i].(helpful := reviews[i].helpful + 1)])
  }

  function HelpfulTotal(reviews: seq<Review>): int {
    if reviews == [] then 0 else reviews[0].helpful + HelpfulTotal(reviews[1..])
  }

  /** One helpful vote adds exactly one to the store's total of votes. */
  lemma {:induction false} HelpfulVoteAddsOne(reviews: seq<Review>, i: nat)
    requires i < |reviews|
    ensures HelpfulTotal(reviews[i := reviews[i].(helpful := reviews[i].helpful + 1)])
            == HelpfulTotal(reviews) + 1
  {
    var after := reviews[i := reviews[i].(helpful := reviews[i].helpful + 1)];
    if i > 0 {
      assert after[1..] == reviews[1..][i - 1 := reviews[i].(helpful := reviews[i].helpful + 1)];
      HelpfulVoteAddsOne(reviews[1..], i - 1);
    } else {
      assert after[1..] == reviews[1..];
    }
  }

  /** A helpful vote leaves every product's listing the same length. */
  lemma {:induction false} HelpfulKeepsListing(reviews: seq<Review>, i: nat, productId: int)
    requires i < |reviews|
    ensures |ReviewsFor(reviews[i := reviews[i].(helpful := reviews[i].helpful + 1)], productId)|
            == |ReviewsFor(reviews, productId)|
  {
    var after := reviews[i := reviews[i].(helpful := reviews[i].helpful + 1)];
    if i > 0 {
      assert after[1..] == reviews[1..][i - 1 := reviews[i].(helpful := reviews[i].helpful + 1)];
      HelpfulKeepsListing(reviews[1..], i - 1, productId);
    } else {
      assert after[1..] == reviews[1..];
    }
  }

  // ---------------------------------------------------------------------------
  // The store
  // ---------------------------------------------------------------------------

  datatype SubmitResult = Submitted(review: Review) | SubmitFailed(error: string)
  datatype HelpfulResult = HelpfulCount(helpful: int) | ReviewNotFound

  /** The module-level `reviews` array and `nextReviewId` counter. */
  class ReviewStore {
    var reviews: seq<Review>
    var nextReviewId: int

    /** Every id in the store is below the counter, so every review the store adds
        gets an id no other review has. */
    predicate Valid()
      reads this
    {
      IdsBelow(reviews, nextReviewId)
    }

    /** Starts from the mock reviews, the counter one past their largest id. */
    constructor(initial: seq<Review>)
      requires initial != []
      ensures reviews == initial && nextReviewId == MaxId(initial) + 1
      ensures Valid()
    {
      reviews := initial;
      nextReviewId := MaxId(initial) + 1;
    }

    /** `submitReview`: a rejected form changes nothing; an accepted one takes the
        counter's id, advances the counter and goes to the front of the list. */
    method SubmitReview(form: ReviewForm) returns (result: SubmitResult)
      requires Valid()
      modifies this
      ensures Valid()
      ensures ValidateReview(form).Rejected? ==>
                result == SubmitFailed(ValidateReview(form).error)
                && reviews == old(reviews) && nextReviewId == old(nextReviewId)
      ensures ValidateReview(form).Accepted? ==>
                var review := NewReview(old(nextReviewId), ValidateReview(form).submission);
                && result == Submitted(review)
                && reviews == [review] + old(reviews)
                && nextReviewId == old(nextReviewId) + 1
      ensures DistinctIds(old(reviews)) ==> DistinctIds(reviews)
    {
      var v := ValidateReview(form);
      if v.Rejected? {
        return SubmitFailed(v.error);
      }
      var review := NewReview(nextReviewId, v.submission);
      nextReviewId := nextReviewId + 1;
      PrependFreshId(reviews, review.id, review);
      reviews := [review] + reviews;
      result := Submitted(review);
    }

    /** `getProductReviews`. */
    method GetProductReviews(productId: int) returns (result: seq<Review>)
      ensures result == ReviewsFor(reviews, productId)
    {
      result := ReviewsFor(reviews, productId);
    }

    /** `markReviewHelpful`: adds one vote to the first review with the id and
        returns its new count; an unknown id changes nothing. */
    method MarkReviewHelpful(reviewId: int) returns (result: HelpfulResult)
      requires Valid()
      modifies this
      ensures Valid()
      ensures nextReviewId == old(nextReviewId)
      ensures MarkHelpful(old(reviews), reviewId).None? ==>
                result == ReviewNotFound && reviews == old(reviews)
      ensures MarkHelpful(old(reviews), reviewId).Some? ==>
                reviews == MarkHelpful(old(reviews), reviewId).value
                && result == HelpfulCount(reviews[FindKey(old(reviews), ReviewId, reviewId)].helpful)
    {
      var reviewIndex := FindKey(reviews, ReviewId, reviewId);
      if reviewIndex == -1 {
        return ReviewNotFound;
      }
      reviews := reviews[reviewIndex := reviews[reviewIndex].(helpful := reviews[reviewIndex].helpful + 1)];
      result := HelpfulCount(reviews[reviewIndex].helpful);
    }
  }
}
