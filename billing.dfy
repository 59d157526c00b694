/** The billing pages: the confirmed bookings handed to the billing list,
    and that list's search. */
module Billing {
  import opened Records
  import opened Seqs
  import opened BookingLists

  predicate IsConfirmed(b: BookingRequest) {
    b.status == Confirmed
  }

  /** `confirmedBookings`: the fetched bookings whose status is `confirmed`. */
  function ConfirmedBookings(all: seq<BookingRequest>): (r: seq<BookingRequest>)
    ensures |r| <= |all|
    ensures forall i :: 0 <= i < |r| ==> r[i].status == Confirmed
  {
    Filter(all, IsConfirmed)
  }

  /** Every confirmed booking is passed on, nothing else is, the order is
      kept, and filtering the result again changes nothing. */
  lemma ConfirmedBookingsSpec(all: seq<BookingRequest>)
    ensures forall b :: b in ConfirmedBookings(all) <==> b in all && b.status == Confirmed
    ensures IsSubsequence(ConfirmedBookings(all), all)
    ensures ConfirmedBookings(ConfirmedBookings(all)) == ConfirmedBookings(all)
  {
    forall b ensures b in ConfirmedBookings(all) <==> b in all && b.status == Confirmed {
      FilterMembership(all, IsConfirmed, b);
    }
    FilterIsSubsequence(all, IsConfirmed);
    FilterIdempotent(all, IsConfirmed);
  }

  /** The billing list's search only selects among the confirmed bookings it
      is given: each row shown is one of them, unaltered, still confirmed. */
  lemma BillingSearchKeepsConfirmed(all: seq<BookingRequest>, term: string)
    ensures forall b :: b in SearchBookings(ConfirmedBookings(all), term) ==>
              b in all && b.status == Confirmed && MatchesSearch(b, term)
    ensures IsSubsequence(SearchBookings(ConfirmedBookings(all), term), ConfirmedBookings(all))
  {
    SearchSpec(ConfirmedBookings(all), term);
    ConfirmedBookingsSpec(all);
  }
}
