/** Server actions on testimonials: creation awaiting review, the public
    list of approved ones, moderation, deletion and the pending count. */
module TestimonialActions {
  import opened Wrappers
  import opened Records
  import opened Seqs

  const NotInitialised := "Database not initialized"

  /** `createTestimonial`: stores the data under a fresh id, always awaiting
      review, stamped with the server's clock `now`. */
  method CreateTestimonial(db: RecordStore, data: TestimonialData, newId: string, now: int, writeFails: bool)
    returns (res: Result<()>)
    requires newId !in db.testimonials
    modifies db
    ensures !db.connected ==> res == Err(NotInitialised)
    ensures db.connected && writeFails ==> res == Err("Could not create testimonial.")
    ensures res.Ok? <==> db.connected && !writeFails
    ensures db.testimonials == (if res.Ok?
                                then old(db.testimonials)[newId := Testimonial(newId, data.userId, data.name, data.comment,
                                                                               data.rating, AwaitingReview, now)]
                                else old(db.testimonials))
    ensures db.cars == old(db.cars) && db.bookings == old(db.bookings)
    ensures db.agreements == old(db.agreements) && db.users == old(db.users)
  {
    if !db.connected {
      return Err(NotInitialised);
    }
    if writeFails {
      return Err("Could not create testimonial.");
    }
    db.testimonials := db.testimonials[newId := Testimonial(newId, data.userId, data.name, data.comment,
                                                            data.rating, AwaitingReview, now)];
    return Ok(());
  }

  predicate IsApproved(t: Testimonial) {
    t.status == Approved
  }

  function CreatedAt(t: Testimonial): int {
    t.createdAt
  }

  /** Every stored testimonial appears in the listing as stored, and the
      listing holds nothing else. */
  predicate ListsStore(listing: seq<Testimonial>, store: map<string, Testimonial>) {
    (forall i :: 0 <= i < |listing| ==> listing[i].id in store && store[listing[i].id] == listing[i])
    && (forall id :: id in store ==> store[id] in listing)
  }

  /** `getApprovedTestimonials`: the newest-first listing filtered to the
      approved entries; no store gives an empty list. */
  function ApprovedTestimonials(connected: bool, newestFirst: seq<Testimonial>): (r: seq<Testimonial>)
    ensures !connected ==> r == []
    ensures forall i :: 0 <= i < |r| ==> r[i].status == Approved
  {
    if connected then Filter(newestFirst, IsApproved) else []
  }

  /** The public list holds exactly the approved testimonials of the store,
      still newest first. */
  lemma ApprovedTestimonialsSpec(newestFirst: seq<Testimonial>, store: map<string, Testimonial>)
    requires ListsStore(newestFirst, store)
    requires SortedDesc(newestFirst, CreatedAt)
    ensures forall id :: id in store && store[id].status == Approved ==> store[id] in ApprovedTestimonials(true, newestFirst)
    ensures forall t :: t in ApprovedTestimonials(true, newestFirst) ==> t.id in store && store[t.id] == t && t.status == Approved
    ensures SortedDesc(ApprovedTestimonials(true, newestFirst), CreatedAt)
  {
    forall t ensures t in Filter(newestFirst, IsApproved) <==> t in newestFirst && IsApproved(t) {
      FilterMembership(newestFirst, IsApproved, t);
    }
    FilterKeepsOrder(newestFirst, IsApproved, CreatedAt);
  }

  /** `updateTestimonialStatus(id, status)`: sets exactly that status, in
      either direction; a missing testimonial makes the update throw
      (`NoDocument` stands for the store's not-found rejection, whose text
      also names the path; the panel shows a fixed toast instead), and
      `writeError` is the store rejecting the write, with its message. */
  method UpdateTestimonialStatus(db: RecordStore, id: string, status: Moderation, writeError: Option<string>)
    returns (res: Result<()>)
    modifies db
    ensures !db.connected ==> res == Err(NotInitialised)
    ensures db.connected && id !in old(db.testimonials) ==> res == Err("No document to update")
    ensures db.connected && id in old(db.testimonials) && writeError.Some? ==> res == Err(writeError.value)
    ensures res.Ok? <==> db.connected && id in old(db.testimonials) && writeError.None?
    ensures db.testimonials == (if res.Ok? then old(db.testimonials)[id := old(db.testimonials)[id].(status := status)]
                                else old(db.testimonials))
    ensures db.cars == old(db.cars) && db.bookings == old(db.bookings)
    ensures db.agreements == old(db.agreements) && db.users == old(db.users)
  {
    if !db.connected {
      return Err(NotInitialised);
    }
    if id !in db.testimonials {
      return Err("No document to update");
    }
    if writeError.Some? {
      return Err(writeError.value);
    }
    db.testimonials := db.testimonials[id := db.testimonials[id].(status := status)];
    return Ok(());
  }

  /** `deleteTestimonial(id)`: removes the record; deleting a missing one
      succeeds and changes nothing. `writeError` is the store rejecting the
      delete, with its message. */
  method DeleteTestimonial(db: RecordStore, id: string, writeError: Option<string>) returns (res: Result<()>)
    modifies db
    ensures !db.connected ==> res == Err(NotInitialised)
    ensures db.connected && writeError.Some? ==> res == Err(writeError.value)
    ensures res.Ok? <==> db.connected && writeError.None?
    ensures db.testimonials == (if res.Ok? then old(db.testimonials) - {id} else old(db.testimonials))
    ensures res.Ok? ==> id !in db.testimonials
    ensures db.cars == old(db.cars) && db.bookings == old(db.bookings)
    ensures db.agreements == old(db.agreements) && db.users == old(db.users)
  {
    if !db.connected {
      return Err(NotInitialised);
    }
    if writeError.Some? {
      return Err(writeError.value);
    }
    db.testimonials := db.testimonials - {id};
    return Ok(());
  }

  function PendingTestimonialIds(store: map<string, Testimonial>): (r: set<string>)
    ensures r <= store.Keys
    ensures forall id :: id in r <==> id in store && store[id].status == AwaitingReview
  {
    set id | id in store && store[id].status == AwaitingReview
  }

  /** `getPendingTestimonialCount`: 0 without a store or when the count
      query fails. */
  function GetPendingTestimonialCount(db: RecordStore, queryFails: bool): (n: nat)
    reads db
    ensures n <= |db.testimonials|
    ensures !db.connected || queryFails ==> n == 0
    ensures db.connected && !queryFails ==> n == |PendingTestimonialIds(db.testimonials)|
  {
    if !db.connected || queryFails then 0
    else
      assert |PendingTestimonialIds(db.testimonials)| <= |db.testimonials.Keys| by {
        SubsetCard(PendingTestimonialIds(db.testimonials), db.testimonials.Keys);
      }
      |PendingTestimonialIds(db.testimonials)|
  }

  /** Approving a pending testimonial takes one off the pending count, and
      marking it pending again puts it back. */
  lemma ApproveThenReopen(store: map<string, Testimonial>, id: string)
    requires id in store && store[id].status == AwaitingReview
    ensures var approved := store[id := store[id].(status := Approved)];
      |PendingTestimonialIds(approved)| == |PendingTestimonialIds(store)| - 1 &&
      approved[id := approved[id].(status := AwaitingReview)] == store
  {
    var approved := store[id := store[id].(status := Approved)];
    assert PendingTestimonialIds(approved) == PendingTestimonialIds(store) - {id};
  }
}
