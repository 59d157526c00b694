/** Client-side rules shared by the booking lists (the admin request
    list, the customer's own bookings and the billing list): the search
    filter, the status badge and the in-place status change of one entry. */
module BookingLists {
  import opened Records
  import opened Text
  import opened Seqs

  datatype Variant = Default | Secondary | Destructive | Outline

  /** `getStatusVariant`: a case-insensitive switch on the status text. */
  function StatusVariant(status: string): (v: Variant)
    ensures v == Default <==> ToLower(status) == "confirmed"
    ensures v == Secondary <==> ToLower(status) == "pending"
    ensures v == Destructive <==> ToLower(status) == "canceled"
  {
    match ToLower(status)
    case "confirmed" => Default
    case "pending" => Secondary
    case "canceled" => Destructive
    case _ => Outline
  }

  /** Each stored status gets its own badge. */
  lemma StatusVariantOfStatus(s: Status)
    ensures StatusVariant(StatusName(s)) == (match s
                                             case Confirmed => Default
                                             case Pending => Secondary
                                             case Canceled => Destructive)
  {
    var n := StatusName(s);
    assert ToLower(n) == n;
  }

  lemma LowerUpperChar(c: char)
    ensures LowerChar(UpperChar(c)) == LowerChar(c)
  {
  }

  /** The badge does not depend on letter case: an upper-cased status gets
      the same badge. */
  lemma {:induction false} StatusVariantIgnoresCase(status: string)
    ensures StatusVariant(ToUpper(status)) == StatusVariant(status)
  {
    forall i | 0 <= i < |status| ensures ToLower(ToUpper(status))[i] == ToLower(status)[i] {
      LowerUpperChar(status[i]);
    }
    assert ToLower(ToUpper(status)) == ToLower(status);
  }

  /** A booking matches when the lower-cased term occurs in its lower-cased
      customer name or its lower-cased id. */
  predicate MatchesSearch(b: BookingRequest, term: string) {
    Contains(ToLower(b.customerName), ToLower(term)) || Contains(ToLower(b.id), ToLower(term))
  }

  /** `filteredBookings`, the same expression in the admin and in the
      billing list. */
  function SearchBookings(bookings: seq<BookingRequest>, term: string): (r: seq<BookingRequest>)
    ensures |r| <= |bookings|
    ensures forall i :: 0 <= i < |r| ==> MatchesSearch(r[i], term)
  {
    Filter(bookings, b => MatchesSearch(b, term))
  }

  /** The search keeps a booking exactly when it matches, keeps the list's
      order and only ever takes entries of the list as they are. */
  lemma SearchSpec(bookings: seq<BookingRequest>, term: string)
    ensures forall b :: b in SearchBookings(bookings, term) <==> b in bookings && MatchesSearch(b, term)
    ensures IsSubsequence(SearchBookings(bookings, term), bookings)
  {
    forall b ensures b in SearchBookings(bookings, term) <==> b in bookings && MatchesSearch(b, term) {
      FilterMembership(bookings, b => MatchesSearch(b, term), b);
    }
    FilterIsSubsequence(bookings, b => MatchesSearch(b, term));
  }

  /** An empty search term keeps every booking. */
  lemma SearchEmptyTerm(bookings: seq<BookingRequest>)
    ensures SearchBookings(bookings, "") == bookings
  {
    forall i | 0 <= i < |bookings| ensures MatchesSearch(bookings[i], "") {
      ContainsEmpty(ToLower(bookings[i].customerName));
    }
    FilterKeepsAll(bookings, b => MatchesSearch(b, ""));
  }

  /** The list after a successful status change of booking `id`. */
  function SetStatusById(bookings: seq<BookingRequest>, id: string, status: Status): (r: seq<BookingRequest>)
    ensures |r| == |bookings|
    ensures forall i :: 0 <= i < |r| && bookings[i].id != id ==> r[i] == bookings[i]
    ensures forall i :: 0 <= i < |r| && bookings[i].id == id ==> r[i] == bookings[i].(status := status)
  {
    seq(|bookings|, i requires 0 <= i < |bookings| =>
      if bookings[i].id == id then bookings[i].(status := status) else bookings[i])
  }

  /** Ids of a list, in order. */
  function Ids(bookings: seq<BookingRequest>): (r: seq<string>)
    ensures |r| == |bookings| && forall i :: 0 <= i < |r| ==> r[i] == bookings[i].id
  {
    seq(|bookings|, i requires 0 <= i < |bookings| => bookings[i].id)
  }

  /** A status change keeps the list's entries, their order and every field
      but the status; applying it twice is applying it once. */
  lemma SetStatusByIdFacts(bookings: seq<BookingRequest>, id: string, status: Status)
    ensures Ids(SetStatusById(bookings, id, status)) == Ids(bookings)
    ensures SetStatusById(SetStatusById(bookings, id, status), id, status) == SetStatusById(bookings, id, status)
    ensures forall i :: 0 <= i < |bookings| ==>
              SetStatusById(bookings, id, status)[i].(status := bookings[i].status) == bookings[i]
  {
  }

  /** After the change every entry with that id has the new status. */
  lemma SetStatusByIdSets(bookings: seq<BookingRequest>, id: string, status: Status)
    ensures forall b :: b in SetStatusById(bookings, id, status) && b.id == id ==> b.status == status
  {
  }
}
