/** The admin's list of booking requests: search, the confirm/reject
    buttons of a pending request and the list update after a decision. */
module AdminBookings {
  import opened Wrappers
  import opened Records
  import opened BookingLists
  import BookingActions
  import DateLedger

  /** The two decisions the admin can take on a request. */
  datatype Decision = Confirm | Reject

  function DecisionStatus(d: Decision): (s: Status)
    ensures s != Pending
    ensures d == Confirm <==> s == Confirmed
  {
    match d
    case Confirm => Confirmed
    case Reject => Canceled
  }

  /** The decision buttons shown on a request: both for a pending request,
      none otherwise. */
  function DecisionsOffered(b: BookingRequest): (r: seq<Decision>)
    ensures |r| > 0 <==> b.status == Pending
    ensures b.status == Pending ==> Confirm in r && Reject in r
  {
    if b.status == Pending then [Confirm, Reject] else []
  }

  /** A request that has been decided offers no further decision. */
  lemma DecidedOffersNothing(b: BookingRequest, d: Decision)
    ensures DecisionsOffered(b.(status := DecisionStatus(d))) == []
  {
  }

  class AdminBookingList {
    var bookings: seq<BookingRequest>
    var searchTerm: string

    constructor (initial: seq<BookingRequest>)
      ensures bookings == initial && searchTerm == ""
    {
      bookings := initial;
      searchTerm := "";
    }

    /** The rows on screen. */
    function Filtered(): (r: seq<BookingRequest>)
      reads this
      ensures forall b :: b in r <==> b in bookings && MatchesSearch(b, searchTerm)
    {
      SearchSpec(bookings, searchTerm);
      SearchBookings(bookings, searchTerm)
    }

    method SetSearchTerm(term: string)
      modifies this
      ensures searchTerm == term && bookings == old(bookings)
    {
      searchTerm := term;
    }

    /** `handleStatusUpdate`: the server update, then, only if it did not
        throw, the matching entry takes the new status. */
    method HandleStatusUpdate(db: RecordStore, bookingId: string, d: Decision)
      returns (res: Result<()>)
      modifies this, db
      ensures bookings == (if res.Ok? then SetStatusById(old(bookings), bookingId, DecisionStatus(d))
                           else old(bookings))
      ensures searchTerm == old(searchTerm)
      ensures db.connected ==>
                db.bookings == (if bookingId in old(db.bookings)
                                then old(db.bookings)[bookingId := old(db.bookings)[bookingId].(status := DecisionStatus(d))]
                                else old(db.bookings))
      ensures db.connected ==>
                db.cars == (if d == Confirm && bookingId in old(db.bookings)
                            then BookingActions.CarsAfterBlock(old(db.cars), old(db.bookings)[bookingId].carId,
                                                               old(db.bookings)[bookingId].pickupDate,
                                                               old(db.bookings)[bookingId].returnDate)
                            else old(db.cars))
      ensures !db.connected ==>
                res == Err(BookingActions.NotInitialised) && db.bookings == old(db.bookings) && db.cars == old(db.cars)
      ensures db.connected && (d == Reject || bookingId !in old(db.bookings)) ==> res.Ok?
      ensures db.connected && d == Confirm && bookingId in old(db.bookings) ==>
                (res.Ok? <==> DateLedger.IsInterval(old(db.bookings)[bookingId].pickupDate, old(db.bookings)[bookingId].returnDate) &&
                              old(db.bookings)[bookingId].carId in old(db.cars))
      ensures db.agreements == old(db.agreements) && db.testimonials == old(db.testimonials) && db.users == old(db.users)
    {
      res := BookingActions.UpdateBookingStatus(db, bookingId, DecisionStatus(d));
      if res.Ok? {
        bookings := SetStatusById(bookings, bookingId, DecisionStatus(d));
      }
    }
  }
}
