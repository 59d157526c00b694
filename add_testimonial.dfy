/** The "share your experience" page: the testimonial schema, the star
    picker and the submit guard. */
module AddTestimonial {
  import opened Wrappers
  import opened Records
  import opened Forms
  import TestimonialActions

  const NameError := FieldError("name", "Name must be at least 2 characters.")
  const ShortCommentError := FieldError("comment", "Your testimonial must be at least 10 characters long.")
  const LongCommentError := FieldError("comment", "Your testimonial cannot exceed 500 characters.")
  const LowRatingError := FieldError("rating", "Number must be greater than or equal to 1")
  const HighRatingError := FieldError("rating", "Number must be less than or equal to 5")

  /** `testimonialSchema`. */
  function Validate(name: string, comment: string, rating: int): (errs: seq<FieldError>)
    ensures errs == [] <==> |name| >= 2 && 10 <= |comment| <= 500 && 1 <= rating <= 5
    ensures |name| < 2 <==> NameError in errs
    ensures |comment| < 10 <==> ShortCommentError in errs
    ensures |comment| > 500 <==> LongCommentError in errs
    ensures rating < 1 <==> LowRatingError in errs
    ensures rating > 5 <==> HighRatingError in errs
  {
    (if |name| < 2 then [NameError] else [])
    + (if |comment| < 10 then [ShortCommentError] else [])
    + (if |comment| > 500 then [LongCommentError] else [])
    + (if rating < 1 then [LowRatingError] else [])
    + (if rating > 5 then [HighRatingError] else [])
  }

  /** The initial rating 0 never passes, whatever the text. */
  lemma InitialRatingRejected(name: string, comment: string)
    ensures LowRatingError in Validate(name, comment, 0)
  {
  }

  class AddTestimonialPage {
    var rating: int
    var hoverRating: int
    var isSubmitted: bool
    // the form's values
    var name: string
    var comment: string
    var formRating: int

    constructor ()
      ensures rating == 0 && hoverRating == 0 && !isSubmitted
      ensures name == "" && comment == "" && formRating == 0
    {
      rating, hoverRating, isSubmitted := 0, 0, false;
      name, comment, formRating := "", "", 0;
    }

    /** Star `star` (1 to 5) is drawn filled: the hovered rating when there
        is one, else the chosen one, reaches it. */
    predicate StarHighlighted(star: int)
      reads this
    {
      (if hoverRating != 0 then hoverRating else rating) >= star
    }

    /** The filled stars are always a prefix of the five. */
    lemma HighlightedIsPrefix(a: int, b: int)
      requires 1 <= a <= b <= 5 && StarHighlighted(b)
      ensures StarHighlighted(a)
    {
    }

    method MouseEnter(star: int)
      requires 1 <= star <= 5
      modifies this
      ensures hoverRating == star && rating == old(rating) && formRating == old(formRating)
      ensures forall s :: StarHighlighted(s) <==> s <= star
    {
      hoverRating := star;
    }

    method MouseLeave()
      modifies this
      ensures hoverRating == 0 && rating == old(rating) && formRating == old(formRating)
      ensures forall s :: StarHighlighted(s) <==> s <= rating
    {
      hoverRating := 0;
    }

    /** Clicking a star chooses it; the form's rating follows the choice. */
    method Click(star: int)
      requires 1 <= star <= 5
      modifies this
      ensures rating == star && formRating == star && hoverRating == old(hoverRating)
      ensures name == old(name) && comment == old(comment) && isSubmitted == old(isSubmitted)
    {
      rating := star;
      formRating := rating;
    }

    /** The signed-in user's display name fills the name field. */
    method UserLoaded(displayName: Option<string>)
      modifies this
      ensures name == displayName.GetOr("")
      ensures comment == old(comment) && formRating == old(formRating) && rating == old(rating)
    {
      name := displayName.GetOr("");
    }

    /** Submitting: values the schema rejects are reported and not sent;
        without a signed-in user nothing is sent; a successful creation
        marks the page submitted and resets the form. The star state is not
        part of the form and keeps its value. */
    method Submit(db: RecordStore, user: Option<AppUser>, newId: string, now: int, writeFails: bool)
      returns (errs: seq<FieldError>, res: Result<()>)
      requires newId !in db.testimonials
      modifies this, db
      ensures errs == Validate(old(name), old(comment), old(formRating))
      ensures errs != [] || user.None? ==>
                db.testimonials == old(db.testimonials) && isSubmitted == old(isSubmitted) &&
                name == old(name) && comment == old(comment) && formRating == old(formRating)
      ensures errs == [] && user.Some? && db.connected && !writeFails ==>
                db.testimonials == old(db.testimonials)[newId := Testimonial(newId, user.value.uid, old(name),
                                                                             old(comment), old(formRating), AwaitingReview, now)]
      ensures errs == [] && user.Some? ==> (res.Ok? <==> db.connected && !writeFails)
      ensures errs == [] && user.Some? && !db.connected ==> res == Err(TestimonialActions.NotInitialised)
      ensures errs == [] && user.Some? && db.connected && writeFails ==> res == Err("Could not create testimonial.")
      ensures res.Err? ==>
                db.testimonials == old(db.testimonials) && isSubmitted == old(isSubmitted) &&
                name == old(name) && comment == old(comment) && formRating == old(formRating)
      ensures isSubmitted <==> old(isSubmitted) || (errs == [] && user.Some? && res.Ok?)
      ensures db.cars == old(db.cars) && db.bookings == old(db.bookings)
      ensures db.agreements == old(db.agreements) && db.users == old(db.users)
      ensures errs == [] && user.Some? && res.Ok? ==> name == "" && comment == "" && formRating == 0
      ensures rating == old(rating) && hoverRating == old(hoverRating)
    {
      errs := Validate(name, comment, formRating);
      res := Ok(());
      if errs != [] || user.None? {
        return;
      }
      var data := TestimonialData(user.value.uid, name, comment, formRating);
      res := TestimonialActions.CreateTestimonial(db, data, newId, now, writeFails);
      if res.Ok? {
        isSubmitted := true;
        name, comment, formRating := "", "", 0;
      }
    }
  }
}
