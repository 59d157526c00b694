/** Server actions on booking requests: document upload, creation with a
    default status, cancellation as a status change, the admin status
    update that blocks a confirmed booking's dates on its car, and the
    pending count. */
module BookingActions {
  import opened Wrappers
  import opened Records
  import opened DateLedger
  import Seqs

  const NotInitialised := "Database not initialized"
  /** Stands for the store's not-found rejection of an update, whose text
      also names the document path; no caller reads the text. */
  const NoDocument := "No document to update"

  /** The sixteen form fields that may carry an uploaded document. */
  const FileFields: seq<string> := [
    "customerNicFront", "customerNicBack", "customerLicenseFront", "customerLicenseBack",
    "customerPassportFront", "customerPassportBack", "customerLightBill", "customerWaterBill",
    "guarantorNicFront", "guarantorNicBack", "guarantorLicenseFront", "guarantorLicenseBack",
    "guarantorPassportFront", "guarantorPassportBack", "guarantorLightBill", "guarantorWaterBill"
  ]

  /** The form carries a non-empty file under `field`. */
  predicate Uploaded(form: map<string, File>, field: string) {
    field in form && form[field].size > 0
  }

  /** Storage path of an uploaded booking document. */
  function DocumentPath(bookingId: string, field: string, fileName: string): string {
    "booking-documents/" + bookingId + "/" + field + "-" + fileName
  }

  /** The `urls` object after the loop has visited `fields`. */
  function DocumentUrls(bookingId: string, form: map<string, File>, fields: seq<string>,
                        upload: string -> string): map<string, string>
    decreases |fields|
  {
    if fields == [] then map[]
    else
      var prev := DocumentUrls(bookingId, form, fields[..|fields| - 1], upload);
      var f := fields[|fields| - 1];
      if Uploaded(form, f) then prev[f + "Url" := upload(DocumentPath(bookingId, f, form[f].name))]
      else prev
  }

  lemma SuffixCancel(a: string, b: string, c: string)
    requires a + c == b + c
    ensures a == b
  {
    assert a == (a + c)[..|a|];
    assert b == (b + c)[..|b|];
  }

  /** The `urls` object holds `<field>Url` exactly for the visited fields
      whose file is present and non-empty, each set to that file's URL. */
  lemma {:induction false} DocumentUrlsKeys(bookingId: string, form: map<string, File>,
                                            fields: seq<string>, upload: string -> string)
    ensures forall k :: k in DocumentUrls(bookingId, form, fields, upload) <==>
              exists f :: f in fields && Uploaded(form, f) && k == f + "Url"
    ensures forall f :: f in fields && Uploaded(form, f) ==>
              DocumentUrls(bookingId, form, fields, upload)[f + "Url"] ==
              upload(DocumentPath(bookingId, f, form[f].name))
    decreases |fields|
  {
    if fields != [] {
      var init := fields[..|fields| - 1];
      var last := fields[|fields| - 1];
      DocumentUrlsKeys(bookingId, form, init, upload);
      assert fields == init + [last];
      forall f | f in fields && Uploaded(form, f)
        ensures DocumentUrls(bookingId, form, fields, upload)[f + "Url"] ==
                upload(DocumentPath(bookingId, f, form[f].name))
      {
        if Uploaded(form, last) && f + "Url" == last + "Url" {
          SuffixCancel(f, last, "Url");
        }
      }
    }
  }

  /** `uploadBookingDocuments`: uploads each present, non-empty document to
      `booking-documents/<bookingId>/<field>-<fileName>` and returns the
      `<field>Url` entries, as `UploadedDocumentKeys` describes them.
      `upload` stands for the blob store: path in, download URL out. */
  method UploadBookingDocuments(bookingId: string, form: map<string, File>, upload: string -> string)
    returns (urls: map<string, string>)
    ensures urls == DocumentUrls(bookingId, form, FileFields, upload)
  {
    urls := map[];
    for i := 0 to |FileFields|
      invariant urls == DocumentUrls(bookingId, form, FileFields[..i], upload)
    {
      var field := FileFields[i];
      assert FileFields[..i + 1][..i] == FileFields[..i];
      if field in form && form[field].size > 0 {
        var path := DocumentPath(bookingId, field, form[field].name);
        urls := urls[field + "Url" := upload(path)];
      }
    }
    assert FileFields[..|FileFields|] == FileFields;
  }

  /** The uploaded documents' URLs: a `<field>Url` key exactly for each of
      the sixteen fields whose file is present and non-empty, holding the
      URL of that file's path, and no other key. */
  lemma UploadedDocumentKeys(bookingId: string, form: map<string, File>, upload: string -> string)
    ensures var urls := DocumentUrls(bookingId, form, FileFields, upload);
      (forall f :: f in FileFields ==> (f + "Url" in urls <==> Uploaded(form, f))) &&
      (forall f :: f in FileFields && Uploaded(form, f) ==>
         urls[f + "Url"] == upload(DocumentPath(bookingId, f, form[f].name))) &&
      urls.Keys == set f | f in FileFields && Uploaded(form, f) :: f + "Url"
  {
    var urls := DocumentUrls(bookingId, form, FileFields, upload);
    DocumentUrlsKeys(bookingId, form, FileFields, upload);
    forall f | f in FileFields ensures f + "Url" in urls <==> Uploaded(form, f) {
      if f + "Url" in urls {
        var g :| g in FileFields && Uploaded(form, g) && f + "Url" == g + "Url";
        SuffixCancel(f, g, "Url");
      }
    }
  }

  /** The car collection after blocking `pickup`..`return` on `carId`: the
      car's list grows by `BlockRange`; nothing changes when the interval is
      invalid or the car does not exist (both make the update throw). */
  function CarsAfterBlock(cars: map<string, CarDoc>, carId: string, pickup: string, return_: string)
    : (r: map<string, CarDoc>)
    ensures r.Keys == cars.Keys
    ensures forall id :: id in cars && id != carId ==> r[id] == cars[id]
  {
    if IsInterval(pickup, return_) && carId in cars then
      var car := cars[carId];
      cars[carId := car.(bookedDates := Some(BlockRange(car.bookedDates.GetOr([]), pickup, return_).value))]
    else cars
  }

  /** Confirming the same range twice leaves the fleet as confirming it
      once: no date is added a second time. */
  lemma CarsAfterBlockIdempotent(cars: map<string, CarDoc>, carId: string, pickup: string, return_: string)
    ensures CarsAfterBlock(CarsAfterBlock(cars, carId, pickup, return_), carId, pickup, return_)
            == CarsAfterBlock(cars, carId, pickup, return_)
  {
    if IsInterval(pickup, return_) && carId in cars {
      BlockRangeIdempotent(cars[carId].bookedDates.GetOr([]), pickup, return_);
    }
  }

  /** Blocking only ever adds dates to a car: every previously booked date
      stays, in place. */
  lemma CarsAfterBlockKeepsDates(cars: map<string, CarDoc>, carId: string, pickup: string, return_: string)
    requires carId in cars
    ensures var before := cars[carId].bookedDates.GetOr([]);
      var after := CarsAfterBlock(cars, carId, pickup, return_)[carId].bookedDates.GetOr([]);
      |before| <= |after| && after[..|before|] == before
  {
  }

  /** `blockCarDates`: adds one `yyyy-MM-dd` string per day of the range to
      the car's `bookedDates` with `arrayUnion`. Without a store it returns
      quietly. */
  method BlockCarDates(db: RecordStore, carId: string, pickup: string, return_: string)
    returns (res: Result<()>)
    modifies db
    ensures db.cars == (if db.connected then CarsAfterBlock(old(db.cars), carId, pickup, return_) else old(db.cars))
    ensures db.bookings == old(db.bookings) && db.agreements == old(db.agreements)
    ensures db.testimonials == old(db.testimonials) && db.users == old(db.users)
    ensures !db.connected ==> res.Ok?
    ensures db.connected && !IsInterval(pickup, return_) ==> res == Err("Invalid interval")
    ensures db.connected && IsInterval(pickup, return_) ==>
              res == (if carId in old(db.cars) then Ok(()) else Err(NoDocument))
  {
    if !db.connected {
      return Ok(());
    }
    var range := BlockRange([], pickup, return_);
    if range.Err? {
      return Err(range.msg);
    }
    if carId !in db.cars {
      return Err(NoDocument);
    }
    var car := db.cars[carId];
    var booked := BlockRange(car.bookedDates.GetOr([]), pickup, return_);
    db.cars := db.cars[carId := car.(bookedDates := Some(booked.value))];
    return Ok(());
  }

  /** The stored record of a new booking request: the caller's data, its
      own id, the status it was given or `pending`, the document URLs and
      the server time `now`. */
  function NewBooking(id: string, data: BookingInput, urls: map<string, string>, now: string): (b: BookingRequest)
    ensures b.id == id && b.documentUrls == urls && b.createdAt == now
    ensures b.status == (if data.status.Some? then data.status.value else Pending)
    ensures b.carId == data.carId && b.userId == data.userId
    ensures b.pickupDate == data.pickupDate && b.returnDate == data.returnDate
  {
    BookingRequest(
      id, data.carId, data.carName, data.userId, data.pickupDate, data.returnDate,
      data.estimatedKm, data.requests, data.status.GetOr(Pending),
      data.customerName, data.customerEmail, data.customerPhone,
      data.customerResidency, data.customerNicOrPassport,
      data.guarantorName, data.guarantorPhone, data.guarantorResidency, data.guarantorNicOrPassport,
      urls, now)
  }

  /** The document URLs a creation stores: an empty form uploads nothing. */
  function CreationUrls(bookingId: string, form: map<string, File>, upload: string -> string): map<string, string> {
    if |form| > 0 then DocumentUrls(bookingId, form, FileFields, upload) else map[]
  }

  /** The record write of a creation, then the document upload and, when
      any URL came back, the write of the URLs into the record. */
  method StoreRequest(db: RecordStore, data: BookingInput, form: map<string, File>,
                      upload: string -> string, newId: string, now: string)
    modifies db
    ensures db.bookings == old(db.bookings)[newId := NewBooking(newId, data, CreationUrls(newId, form, upload), now)]
    ensures db.cars == old(db.cars) && db.agreements == old(db.agreements)
    ensures db.testimonials == old(db.testimonials) && db.users == old(db.users)
  {
    db.bookings := db.bookings[newId := NewBooking(newId, data, map[], now)];
    if |form| > 0 {
      var urls := UploadBookingDocuments(newId, form, upload);
      if |urls| > 0 {
        db.bookings := db.bookings[newId := NewBooking(newId, data, urls, now)];
      } else {
        assert urls == map[];
      }
    }
  }

  /** Where the store rejects a creation, with the message it gives: the
      record insert itself, or a write after it (the id write, a document
      upload or the write of the URLs), which leaves the record without
      document URLs. */
  datatype CreationFault = NoFault | InsertRejected(message: string) | FollowUpRejected(message: string)

  const CreationFailed := "Failed to create booking request: "

  /** `createBookingRequest`: stores the request under a fresh id, uploads
      its documents, and blocks the car's dates only when the request is
      created `confirmed`. Every rejection inside the `try` becomes one
      error carrying the rejection's message; a rejection after the insert
      leaves the record in place, and the dates are then not blocked. */
  method CreateBookingRequest(db: RecordStore, data: BookingInput, form: map<string, File>,
                              upload: string -> string, newId: string, now: string, fault: CreationFault)
    returns (res: Result<()>)
    requires newId !in db.bookings
    modifies db
    ensures !db.connected ==> res == Err(NotInitialised) && db.bookings == old(db.bookings) && db.cars == old(db.cars)
    ensures db.connected && fault.InsertRejected? ==>
              res == Err(CreationFailed + fault.message) && db.bookings == old(db.bookings) && db.cars == old(db.cars)
    ensures db.connected && fault.FollowUpRejected? ==>
              res == Err(CreationFailed + fault.message) && db.cars == old(db.cars) &&
              db.bookings == old(db.bookings)[newId := NewBooking(newId, data, map[], now)]
    ensures db.connected && fault.NoFault? ==>
              db.bookings == old(db.bookings)[newId := NewBooking(newId, data, CreationUrls(newId, form, upload), now)]
    ensures db.connected && fault.NoFault? ==>
              db.cars == (if data.status == Some(Confirmed)
                          then CarsAfterBlock(old(db.cars), data.carId, data.pickupDate, data.returnDate)
                          else old(db.cars))
    ensures db.connected && fault.NoFault? ==>
              (res.Ok? <==> data.status != Some(Confirmed) ||
                            (IsInterval(data.pickupDate, data.returnDate) && data.carId in old(db.cars)))
    ensures db.agreements == old(db.agreements) && db.testimonials == old(db.testimonials) && db.users == old(db.users)
  {
    if !db.connected {
      return Err(NotInitialised);
    }
    if fault.InsertRejected? {
      return Err(CreationFailed + fault.message);
    }
    if fault.FollowUpRejected? {
      db.bookings := db.bookings[newId := NewBooking(newId, data, map[], now)];
      return Err(CreationFailed + fault.message);
    }
    var status := data.status.GetOr(Pending);
    StoreRequest(db, data, form, upload, newId, now);
    if status == Confirmed {
      var blocked := BlockCarDates(db, data.carId, data.pickupDate, data.returnDate);
      if blocked.Err? {
        return Err(CreationFailed + blocked.msg);
      }
    }
    return Ok(());
  }

  /** `cancelBookingRequest`: a status change to `canceled`, never a
      deletion; the car's dates are not released. `writeFails` stands for
      the store rejecting the update. */
  method CancelBookingRequest(db: RecordStore, bookingId: string, writeFails: bool) returns (res: Result<()>)
    modifies db
    ensures res.Ok? <==> db.connected && bookingId in old(db.bookings) && !writeFails
    ensures !db.connected ==> res == Err(NotInitialised)
    ensures db.connected && bookingId !in old(db.bookings) ==> res == Err("Booking request not found.")
    ensures db.connected && bookingId in old(db.bookings) && writeFails ==>
              res == Err("Failed to cancel the booking request.")
    ensures db.bookings == (if res.Ok? then old(db.bookings)[bookingId := old(db.bookings)[bookingId].(status := Canceled)]
                            else old(db.bookings))
    ensures db.cars == old(db.cars) && db.agreements == old(db.agreements)
    ensures db.testimonials == old(db.testimonials) && db.users == old(db.users)
  {
    if !db.connected {
      return Err(NotInitialised);
    }
    if bookingId !in db.bookings {
      return Err("Booking request not found.");
    }
    if writeFails {
      return Err("Failed to cancel the booking request.");
    }
    var b := db.bookings[bookingId];
    db.bookings := db.bookings[bookingId := b.(status := Canceled)];
    return Ok(());
  }

  /** `updateBookingStatus(id, status)` for `confirmed` or `canceled`. The
      status write is taken to complete first; a missing booking makes it
      fail silently. On `confirmed` the stored booking's range is blocked on
      its car; `canceled` leaves every car as it was. */
  method UpdateBookingStatus(db: RecordStore, bookingId: string, status: Status) returns (res: Result<()>)
    requires status != Pending
    modifies db
    ensures !db.connected ==> res == Err(NotInitialised) && db.bookings == old(db.bookings) && db.cars == old(db.cars)
    ensures db.connected ==>
              db.bookings == (if bookingId in old(db.bookings)
                              then old(db.bookings)[bookingId := old(db.bookings)[bookingId].(status := status)]
                              else old(db.bookings))
    ensures db.connected ==>
              db.cars == (if status == Confirmed && bookingId in old(db.bookings)
                          then CarsAfterBlock(old(db.cars), old(db.bookings)[bookingId].carId,
                                              old(db.bookings)[bookingId].pickupDate, old(db.bookings)[bookingId].returnDate)
                          else old(db.cars))
    ensures db.connected && (status == Canceled || bookingId !in old(db.bookings)) ==> res.Ok?
    ensures db.connected && status == Confirmed && bookingId in old(db.bookings) ==>
              (res.Ok? <==> IsInterval(old(db.bookings)[bookingId].pickupDate, old(db.bookings)[bookingId].returnDate) &&
                            old(db.bookings)[bookingId].carId in old(db.cars))
    ensures db.agreements == old(db.agreements) && db.testimonials == old(db.testimonials) && db.users == old(db.users)
  {
    if !db.connected {
      return Err(NotInitialised);
    }
    if bookingId in db.bookings {
      var b := db.bookings[bookingId];
      db.bookings := db.bookings[bookingId := b.(status := status)];
    }
    if status == Confirmed && bookingId in db.bookings {
      var stored := db.bookings[bookingId];
      var blocked := BlockCarDates(db, stored.carId, stored.pickupDate, stored.returnDate);
      if blocked.Err? {
        return Err(blocked.msg);
      }
    }
    return Ok(());
  }

  /** Ids of the pending booking requests. */
  function PendingIds(bookings: map<string, BookingRequest>): (r: set<string>)
    ensures r <= bookings.Keys
    ensures forall id :: id in r <==> id in bookings && bookings[id].status == Pending
  {
    set id | id in bookings && bookings[id].status == Pending
  }

  /** `getPendingBookingCount`: the number of pending requests, or 0 when
      the store is missing or the count query fails. */
  function GetPendingBookingCount(db: RecordStore, queryFails: bool): (n: nat)
    reads db
    ensures n <= |db.bookings|
    ensures !db.connected || queryFails ==> n == 0
    ensures db.connected && !queryFails ==> n == |PendingIds(db.bookings)|
  {
    if !db.connected || queryFails then 0
    else
      assert |PendingIds(db.bookings)| <= |db.bookings.Keys| by {
        Seqs.SubsetCard(PendingIds(db.bookings), db.bookings.Keys);
      }
      |PendingIds(db.bookings)|
  }

  /** A new pending request adds one to the pending count. */
  lemma PendingCountAfterCreate(bookings: map<string, BookingRequest>, id: string, b: BookingRequest)
    requires id !in bookings && b.status == Pending
    ensures |PendingIds(bookings[id := b])| == |PendingIds(bookings)| + 1
  {
    assert PendingIds(bookings[id := b]) == PendingIds(bookings) + {id};
  }

  /** Cancelling a pending request takes one off the pending count. */
  lemma PendingCountAfterCancel(bookings: map<string, BookingRequest>, id: string)
    requires id in bookings && bookings[id].status == Pending
    ensures |PendingIds(bookings[id := bookings[id].(status := Canceled)])| == |PendingIds(bookings)| - 1
  {
    assert PendingIds(bookings[id := bookings[id].(status := Canceled)]) == PendingIds(bookings) - {id};
  }
}
