/** The admin's testimonial table: moderation and deletion from the menu,
    and the star rendering. */
module TestimonialList {
  import opened Wrappers
  import opened Records
  import opened Seqs
  import TestimonialActions

  datatype MenuItem = Approve | MarkAsPending

  /** The moderation entry of a testimonial's menu. */
  function MenuAction(t: Testimonial): (m: MenuItem)
    ensures m == Approve <==> t.status == AwaitingReview
  {
    if t.status == AwaitingReview then Approve else MarkAsPending
  }

  /** The status a menu entry sets. */
  function MenuTarget(m: MenuItem): Moderation {
    match m
    case Approve => Approved
    case MarkAsPending => AwaitingReview
  }

  /** Choosing the menu entry always flips the testimonial's status. */
  lemma MenuFlipsStatus(t: Testimonial)
    ensures MenuTarget(MenuAction(t)) != t.status
  {
  }

  /** The five stars of a rating: star `i` (from 0) is filled when `i` is
      below the rating. */
  function FilledStars(rating: int): (r: seq<bool>)
    ensures |r| == 5
    ensures forall i :: 0 <= i < 5 ==> (r[i] <==> i < rating)
  {
    seq(5, i => i < rating)
  }

  /** A rating of 1 to 5 fills exactly that many stars. */
  lemma FilledStarsCount(rating: int)
    requires 0 <= rating <= 5
    ensures multiset(FilledStars(rating))[true] == rating
  {
    var r := FilledStars(rating);
    assert r == seq(rating, i => true) + seq(5 - rating, i => false);
    AllSameCount(rating, true);
    AllSameCount(5 - rating, false);
  }

  lemma {:induction false} AllSameCount(n: nat, b: bool)
    ensures multiset(seq(n, i => b))[b] == n && multiset(seq(n, i => b))[!b] == 0
  {
    if n > 0 {
      AllSameCount(n - 1, b);
      assert seq(n, i => b) == seq(n - 1, i => b) + [b];
    }
  }

  /** The list after a successful status update of `id`. */
  function SetStatusById(ts: seq<Testimonial>, id: string, status: Moderation): (r: seq<Testimonial>)
    ensures |r| == |ts|
    ensures forall i :: 0 <= i < |ts| ==> r[i] == (if ts[i].id == id then ts[i].(status := status) else ts[i])
  {
    seq(|ts|, i requires 0 <= i < |ts| => if ts[i].id == id then ts[i].(status := status) else ts[i])
  }

  predicate IdIsNot(id: string, t: Testimonial) {
    t.id != id
  }

  /** The list after a successful delete of `id`. */
  function Without(ts: seq<Testimonial>, id: string): (r: seq<Testimonial>)
    ensures forall i :: 0 <= i < |r| ==> r[i].id != id
  {
    Filter(ts, t => IdIsNot(id, t))
  }

  /** Deleting removes exactly the entries with that id; the rest keep their
      order. */
  lemma WithoutSpec(ts: seq<Testimonial>, id: string)
    ensures forall t :: t in Without(ts, id) <==> t in ts && t.id != id
    ensures IsSubsequence(Without(ts, id), ts)
  {
    forall t ensures t in Without(ts, id) <==> t in ts && t.id != id {
      FilterMembership(ts, t => IdIsNot(id, t), t);
    }
    FilterIsSubsequence(ts, t => IdIsNot(id, t));
  }

  class TestimonialListPanel {
    var testimonials: seq<Testimonial>

    constructor (fetched: seq<Testimonial>)
      ensures testimonials == fetched
    {
      testimonials := fetched;
    }

    /** `handleStatusUpdate`: the list and the store change only when the
        store update succeeded. */
    method HandleStatusUpdate(db: RecordStore, id: string, status: Moderation, writeError: Option<string>)
      returns (res: Result<()>)
      modifies this, db
      ensures testimonials == (if res.Ok? then SetStatusById(old(testimonials), id, status) else old(testimonials))
      ensures res.Ok? <==> db.connected && id in old(db.testimonials) && writeError.None?
      ensures db.testimonials == (if res.Ok? then old(db.testimonials)[id := old(db.testimonials)[id].(status := status)]
                                  else old(db.testimonials))
      ensures db.cars == old(db.cars) && db.bookings == old(db.bookings)
      ensures db.agreements == old(db.agreements) && db.users == old(db.users)
    {
      res := TestimonialActions.UpdateTestimonialStatus(db, id, status, writeError);
      if res.Ok? {
        testimonials := SetStatusById(testimonials, id, status);
      }
    }

    /** `handleDelete`: the entry leaves the list and the store only when
        the store delete succeeded. */
    method HandleDelete(db: RecordStore, id: string, writeError: Option<string>) returns (res: Result<()>)
      modifies this, db
      ensures testimonials == (if res.Ok? then Without(old(testimonials), id) else old(testimonials))
      ensures res.Ok? <==> db.connected && writeError.None?
      ensures db.testimonials == (if res.Ok? then old(db.testimonials) - {id} else old(db.testimonials))
      ensures db.cars == old(db.cars) && db.bookings == old(db.bookings)
      ensures db.agreements == old(db.agreements) && db.users == old(db.users)
    {
      res := TestimonialActions.DeleteTestimonial(db, id, writeError);
      if res.Ok? {
        testimonials := Without(testimonials, id);
      }
    }
  }
}
