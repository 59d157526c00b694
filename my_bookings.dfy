/** The customer's "My Bookings" page: the cancel dialog and the buttons a
    booking offers by status. */
module MyBookings {
  import opened Wrappers
  import opened Records
  import opened BookingLists
  import BookingActions

  datatype CustomerAction = CancelRequest | ViewAgreement

  /** Cancel is offered for a pending booking, the agreement for a
      confirmed one, and a canceled booking offers nothing. */
  function ActionsOffered(b: BookingRequest): (r: seq<CustomerAction>)
    ensures CancelRequest in r <==> b.status == Pending
    ensures ViewAgreement in r <==> b.status == Confirmed
    ensures b.status == Canceled ==> r == []
  {
    match b.status
    case Pending => [CancelRequest]
    case Confirmed => [ViewAgreement]
    case Canceled => []
  }

  /** No booking offers both cancellation and its agreement. */
  lemma CancelAndAgreementExclusive(b: BookingRequest)
    ensures !(CancelRequest in ActionsOffered(b) && ViewAgreement in ActionsOffered(b))
  {
  }

  class MyBookingsPage {
    var bookings: seq<BookingRequest>
    var showCancelDialog: bool
    var bookingToCancel: Option<BookingRequest>

    constructor (initial: seq<BookingRequest>)
      ensures bookings == initial && !showCancelDialog && bookingToCancel == None
    {
      bookings := initial;
      showCancelDialog := false;
      bookingToCancel := None;
    }

    /** `handleCancelClick`: remembers the booking and opens the dialog. */
    method HandleCancelClick(b: BookingRequest)
      modifies this
      ensures bookingToCancel == Some(b) && showCancelDialog && bookings == old(bookings)
    {
      bookingToCancel := Some(b);
      showCancelDialog := true;
    }

    /** `handleCancelConfirm`: without a selection nothing happens. Otherwise
        the booking is canceled in the store and, if that succeeded, in the
        list; in every case the dialog then closes and the selection is
        cleared. */
    method HandleCancelConfirm(db: RecordStore, writeFails: bool) returns (res: Result<()>)
      modifies this, db
      ensures old(bookingToCancel) == None ==>
                res.Ok? && bookings == old(bookings) && showCancelDialog == old(showCancelDialog) &&
                bookingToCancel == None && db.bookings == old(db.bookings)
      ensures old(bookingToCancel).Some? ==>
                !showCancelDialog && bookingToCancel == None &&
                bookings == (if res.Ok? then SetStatusById(old(bookings), old(bookingToCancel).value.id, Canceled)
                             else old(bookings))
      ensures old(bookingToCancel).Some? ==>
                var id := old(bookingToCancel).value.id;
                (res.Ok? <==> db.connected && id in old(db.bookings) && !writeFails) &&
                db.bookings == (if res.Ok? then old(db.bookings)[id := old(db.bookings)[id].(status := Canceled)]
                                else old(db.bookings))
      ensures db.cars == old(db.cars) && db.agreements == old(db.agreements)
      ensures db.testimonials == old(db.testimonials) && db.users == old(db.users)
    {
      if bookingToCancel == None {
        return Ok(());
      }
      var id := bookingToCancel.value.id;
      res := BookingActions.CancelBookingRequest(db, id, writeFails);
      if res.Ok? {
        bookings := SetStatusById(bookings, id, Canceled);
      }
      showCancelDialog := false;
      bookingToCancel := None;
    }
  }
}
