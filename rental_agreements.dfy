/** Rental agreements, one document per booking: a partial save merged into
    whatever is stored, and a read that fills every field in. */
module RentalAgreements {
  import opened Wrappers
  import opened Records

  const NotInitialised := "Database not initialized"

  /** The agreement's text fields. */
  const TextFields: set<string> := {
    "agreementDate", "renterIdOrPassport", "renterAddress", "vehicleDetails",
    "rentalStartDate", "rentalDuration", "rentCostPerDayMonth", "totalRentCost",
    "depositMoney", "dailyKMLimit", "priceForAdditionalKM",
    "clientFullName", "clientContactNumber", "clientSignDate",
    "guarantorName", "guarantorNIC", "guarantorAddress", "guarantorContact",
    "billDate"
  }

  /** The agreement's billing numbers. */
  const NumberFields: set<string> := {
    "additionalKm", "pricePerKm", "additionalDays", "pricePerDay",
    "damages", "delayPayments", "otherCharges", "paidAmount"
  }

  /** A stored value JavaScript treats as false: an empty text or zero. */
  predicate Falsy(v: Value) {
    v == Str("") || v == Num(0.0)
  }

  /** `doc[f] || fallback`. */
  function OrDefault(d: Doc, f: string, fallback: Value): (r: Value)
    ensures f in d && !Falsy(d[f]) ==> r == d[f]
    ensures f !in d || Falsy(d[f]) ==> r == fallback
  {
    if f in d && !Falsy(d[f]) then d[f] else fallback
  }

  /** The agreement a read returns. */
  datatype Agreement = Agreement(
    id: string, bookingId: Option<Value>, lastUpdated: string,
    texts: map<string, Value>, numbers: map<string, Value>)

  /** The document a save leaves behind: the stored fields, overwritten by
      the supplied ones, with the booking id and the server's time. */
  function MergeSave(prev: Option<Doc>, bookingId: string, data: Doc, now: string): (r: Doc)
    ensures r.Keys == prev.GetOr(map[]).Keys + data.Keys + {"bookingId", "lastUpdated"}
    ensures r["bookingId"] == Str(bookingId) && r["lastUpdated"] == ServerTime(now)
    ensures forall k :: k in data && k != "bookingId" && k != "lastUpdated" ==> r[k] == data[k]
    ensures forall k :: k in prev.GetOr(map[]) && k !in data && k != "bookingId" && k != "lastUpdated" ==>
              r[k] == prev.GetOr(map[])[k]
  {
    prev.GetOr(map[]) + data + map["bookingId" := Str(bookingId), "lastUpdated" := ServerTime(now)]
  }

  /** Saving the same fields twice leaves what saving them once left. */
  lemma MergeSaveIdempotent(prev: Option<Doc>, bookingId: string, data: Doc, now: string)
    ensures MergeSave(Some(MergeSave(prev, bookingId, data, now)), bookingId, data, now)
            == MergeSave(prev, bookingId, data, now)
  {
  }

  /** `saveRentalAgreement(bookingId, data)`: a merge write of the supplied
      fields under the booking id. `now` is the server's time and
      `writeFails` stands for the store rejecting the write. */
  method SaveRentalAgreement(db: RecordStore, bookingId: string, data: Doc, now: string, writeFails: bool)
    returns (res: Result<bool>)
    modifies db
    ensures !db.connected ==> res == Err(NotInitialised)
    ensures db.connected && writeFails ==> res == Err("Failed to save rental agreement.")
    ensures db.connected && !writeFails ==> res == Ok(true)
    ensures db.agreements == (if res.Ok?
                              then old(db.agreements)[bookingId := MergeSave(
                                     if bookingId in old(db.agreements) then Some(old(db.agreements)[bookingId]) else None,
                                     bookingId, data, now)]
                              else old(db.agreements))
    ensures db.cars == old(db.cars) && db.bookings == old(db.bookings)
    ensures db.testimonials == old(db.testimonials) && db.users == old(db.users)
  {
    if !db.connected {
      return Err(NotInitialised);
    }
    if writeFails {
      return Err("Failed to save rental agreement.");
    }
    var prev := if bookingId in db.agreements then Some(db.agreements[bookingId]) else None;
    db.agreements := db.agreements[bookingId := MergeSave(prev, bookingId, data, now)];
    return Ok(true);
  }

  /** The read's defaulting: each text field falls back to "", each number
      to 0, `lastUpdated` to the reader's clock unless the server wrote it. */
  function Normalise(id: string, d: Doc, now: string): (a: Agreement)
    ensures a.id == id
    ensures a.texts.Keys == TextFields && a.numbers.Keys == NumberFields
    ensures forall f :: f in TextFields ==> a.texts[f] == OrDefault(d, f, Str(""))
    ensures forall f :: f in NumberFields ==> a.numbers[f] == OrDefault(d, f, Num(0.0))
    ensures a.bookingId == (if "bookingId" in d then Some(d["bookingId"]) else None)
  {
    Agreement(
      id,
      if "bookingId" in d then Some(d["bookingId"]) else None,
      if "lastUpdated" in d && d["lastUpdated"].ServerTime? then d["lastUpdated"].iso else now,
      map f | f in TextFields :: OrDefault(d, f, Str("")),
      map f | f in NumberFields :: OrDefault(d, f, Num(0.0)))
  }

  /** No field of a read agreement is missing or falsy unless it is the
      default: every text is "" or a truthy stored value, every number 0 or
      a truthy stored value. */
  lemma NormaliseDefaults(id: string, d: Doc, now: string, f: string)
    ensures f in TextFields ==>
              var t := Normalise(id, d, now).texts[f];
              t == Str("") || (f in d && t == d[f] && !Falsy(t))
    ensures f in NumberFields ==>
              var n := Normalise(id, d, now).numbers[f];
              n == Num(0.0) || (f in d && n == d[f] && !Falsy(n))
  {
  }

  /** `getRentalAgreement(bookingId)`: null for a missing agreement. */
  function GetRentalAgreement(db: RecordStore, bookingId: string, now: string): (r: Result<Option<Agreement>>)
    reads db
    ensures !db.connected ==> r == Err(NotInitialised)
    ensures db.connected ==> r.Ok? && (r.value.None? <==> bookingId !in db.agreements)
    ensures r.Ok? && r.value.Some? ==>
              r.value.value.id == bookingId && r.value.value == Normalise(bookingId, db.agreements[bookingId], now)
  {
    if !db.connected then Err(NotInitialised)
    else if bookingId !in db.agreements then Ok(None)
    else Ok(Some(Normalise(bookingId, db.agreements[bookingId], now)))
  }

  /** The bookkeeping keys are not agreement fields. */
  lemma NotBookkeeping(f: string)
    requires f in TextFields || f in NumberFields
    ensures f != "bookingId" && f != "lastUpdated"
  {
  }

  /** One field read after a save: supplied truthy values show as supplied,
      unsupplied fields read as they did before the save. */
  lemma SaveThenReadField(prev: Option<Doc>, bookingId: string, data: Doc, saveTime: string, readTime: string, f: string)
    requires f in TextFields || f in NumberFields
    ensures var merged := MergeSave(prev, bookingId, data, saveTime);
      (f in data && !Falsy(data[f]) ==> OrDefault(merged, f, Str("")) == data[f] && OrDefault(merged, f, Num(0.0)) == data[f]) &&
      (f !in data ==> OrDefault(merged, f, Str("")) == OrDefault(prev.GetOr(map[]), f, Str("")) &&
                      OrDefault(merged, f, Num(0.0)) == OrDefault(prev.GetOr(map[]), f, Num(0.0)))
  {
    NotBookkeeping(f);
  }

  /** Reading after a save: the agreement names its booking, carries the
      save's server time, shows every supplied truthy field as supplied
      and every other field as it read before the save. */
  lemma SaveThenRead(prev: Option<Doc>, bookingId: string, data: Doc, saveTime: string, readTime: string)
    ensures var a := Normalise(bookingId, MergeSave(prev, bookingId, data, saveTime), readTime);
      a.id == bookingId && a.bookingId == Some(Str(bookingId)) && a.lastUpdated == saveTime &&
      (forall f :: f in TextFields && f in data && !Falsy(data[f]) ==> a.texts[f] == data[f]) &&
      (forall f :: f in NumberFields && f in data && !Falsy(data[f]) ==> a.numbers[f] == data[f]) &&
      (forall f :: f in TextFields && f !in data ==>
         a.texts[f] == Normalise(bookingId, prev.GetOr(map[]), readTime).texts[f]) &&
      (forall f :: f in NumberFields && f !in data ==>
         a.numbers[f] == Normalise(bookingId, prev.GetOr(map[]), readTime).numbers[f])
  {
    forall f | f in TextFields || f in NumberFields {
      SaveThenReadField(prev, bookingId, data, saveTime, readTime, f);
    }
  }
}
