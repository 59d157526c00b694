/** The admin's manual booking form: its schema, and the confirmed
    booking it records for a car of the fleet. */
module ManualBooking {
  import opened Wrappers
  import opened Forms
  import opened Records
  import opened Text
  import opened Calendar
  import opened DateLedger
  import opened CarData
  import BookingActions

  /** The form's values; the car and the dates are `None` until one is
      picked (the form gives them no default). */
  datatype Values = Values(
    carId: Option<string>, customerName: string, customerEmail: string, customerPhone: string,
    pickupDate: Option<Date>, returnDate: Option<Date>,
    estimatedKm: Option<int>, requests: Option<string>)

  const ReturnOrderError := FieldError("returnDate", "Return date must be after pickup date.")

  /** A `z.date()` field: missing gives its required message; a date that
      is no calendar day is rejected as invalid. */
  function DateFieldErrors(path: string, d: Option<Date>, required: string): (errs: seq<FieldError>)
    ensures errs == [] <==> d.Some? && Valid(d.value)
  {
    if d.None? then [FieldError(path, required)]
    else if !Valid(d.value) then [FieldError(path, "Invalid date")]
    else []
  }

  /** The rules on the customer and car fields. */
  function ContactErrors(v: Values): (errs: seq<FieldError>)
    ensures errs == [] <==> v.carId.Some? && |v.carId.value| >= 1 && |v.customerName| >= 2
                            && IsValidEmail(v.customerEmail) && |v.customerPhone| >= 5
    ensures forall e :: e in errs ==> e.path != "returnDate"
    ensures v.carId.None? ==> FieldError("carId", "Required") in errs
    ensures v.carId == Some("") ==> FieldError("carId", "Please select a car.") in errs
    ensures |v.customerName| < 2 ==> FieldError("customerName", "Customer name is required.") in errs
    ensures !IsValidEmail(v.customerEmail) ==> FieldError("customerEmail", "Please enter a valid email.") in errs
    ensures |v.customerPhone| < 5 ==> FieldError("customerPhone", "Please enter a valid phone number.") in errs
  {
    (if v.carId.None? then [FieldError("carId", "Required")]
     else if |v.carId.value| < 1 then [FieldError("carId", "Please select a car.")] else [])
    + (if |v.customerName| < 2 then [FieldError("customerName", "Customer name is required.")] else [])
    + (if !IsValidEmail(v.customerEmail) then [FieldError("customerEmail", "Please enter a valid email.")] else [])
    + (if |v.customerPhone| < 5 then [FieldError("customerPhone", "Please enter a valid phone number.")] else [])
  }

  /** The field rules, in field order. */
  function FieldErrors(v: Values): (errs: seq<FieldError>)
    ensures errs == [] <==> FieldsValid(v)
    ensures ReturnOrderError !in errs
  {
    var contact := ContactErrors(v);
    var pickup := DateFieldErrors("pickupDate", v.pickupDate, "A pickup date is required.");
    var return_ := DateFieldErrors("returnDate", v.returnDate, "A return date is required.");
    var requests := if v.requests.Some? && |v.requests.value| > 500
                    then [FieldError("requests", "String must contain at most 500 character(s)")] else [];
    assert ReturnOrderError !in contact && ReturnOrderError !in pickup;
    assert ReturnOrderError !in return_ && ReturnOrderError !in requests;
    contact + pickup + return_ + requests
  }

  /** Every field rule holds. */
  predicate FieldsValid(v: Values) {
    v.carId.Some? && |v.carId.value| >= 1 && |v.customerName| >= 2 && IsValidEmail(v.customerEmail) && |v.customerPhone| >= 5
    && v.pickupDate.Some? && Valid(v.pickupDate.value)
    && v.returnDate.Some? && Valid(v.returnDate.value)
    && (v.requests.None? || |v.requests.value| <= 500)
  }

  /** The return day is strictly after the pickup day. */
  predicate ReturnAfterPickup(v: Values)
    requires FieldsValid(v)
  {
    DayNumber(v.returnDate.value) > DayNumber(v.pickupDate.value)
  }

  /** The object-level rule runs unless a field was aborted: a field is
      aborted when its value is missing or of the wrong kind (no car
      picked, a date missing or no calendar day), while a string that is
      too short or too long only adds its issue. */
  predicate RefineRuns(v: Values) {
    v.carId.Some? && v.pickupDate.Some? && Valid(v.pickupDate.value)
    && v.returnDate.Some? && Valid(v.returnDate.value)
  }

  /** `manualBookingSchema`: the field rules in field order, then the
      date-order rule, reported on `returnDate`, whenever it runs. */
  function Validate(v: Values): (errs: seq<FieldError>)
    ensures errs == [] <==> FieldsValid(v) && ReturnAfterPickup(v)
    ensures ReturnOrderError in errs <==>
              RefineRuns(v) && DayNumber(v.returnDate.value) <= DayNumber(v.pickupDate.value)
    ensures FieldsValid(v) && !ReturnAfterPickup(v) ==> errs == [ReturnOrderError]
    ensures v.carId.None? ==> FieldError("carId", "Required") in errs
    ensures v.carId == Some("") ==> FieldError("carId", "Please select a car.") in errs
    ensures |v.customerName| < 2 ==> FieldError("customerName", "Customer name is required.") in errs
    ensures !IsValidEmail(v.customerEmail) ==> FieldError("customerEmail", "Please enter a valid email.") in errs
    ensures |v.customerPhone| < 5 ==> FieldError("customerPhone", "Please enter a valid phone number.") in errs
    ensures v.pickupDate.None? ==> FieldError("pickupDate", "A pickup date is required.") in errs
    ensures v.returnDate.None? ==> FieldError("returnDate", "A return date is required.") in errs
  {
    var fieldErrors := FieldErrors(v);
    assert fieldErrors == ContactErrors(v) + DateFieldErrors("pickupDate", v.pickupDate, "A pickup date is required.")
           + DateFieldErrors("returnDate", v.returnDate, "A return date is required.")
           + (if v.requests.Some? && |v.requests.value| > 500
              then [FieldError("requests", "String must contain at most 500 character(s)")] else []);
    fieldErrors + (if RefineRuns(v) && DayNumber(v.returnDate.value) <= DayNumber(v.pickupDate.value)
                   then [ReturnOrderError] else [])
  }

  /** `cars.find(car => car.id === id)`: the first car with that id. */
  function FindCar(cars: seq<Car>, id: string): (r: Option<Car>)
    ensures r.None? <==> forall i :: 0 <= i < |cars| ==> cars[i].id != id
    ensures r.Some? ==> r.value in cars && r.value.id == id
    ensures r.Some? ==> exists i :: 0 <= i < |cars| && cars[i] == r.value &&
                          forall j :: 0 <= j < i ==> cars[j].id != id
  {
    if |cars| == 0 then None
    else if cars[0].id == id then Some(cars[0])
    else
      var r := FindCar(cars[1..], id);
      if r.Some? then
        var k :| 0 <= k < |cars[1..]| && cars[1..][k] == r.value &&
                 forall j :: 0 <= j < k ==> cars[1..][j].id != id;
        assert cars[k + 1] == r.value;
        r
      else r
  }

  const NotApplicable := "N/A"

  /** The booking the manual form records: confirmed, local residency for
      both people, `N/A` for the identity numbers and the guarantor,
      the selected car's name and both days written `yyyy-MM-dd`. */
  function ManualBookingData(v: Values, car: Car, uid: string): (b: BookingInput)
    requires FieldsValid(v)
    ensures b.status == Some(Confirmed)
    ensures b.customerResidency == Local && b.guarantorResidency == Local
    ensures b.customerNicOrPassport == NotApplicable && b.guarantorNicOrPassport == NotApplicable
    ensures b.guarantorName == NotApplicable && b.guarantorPhone == NotApplicable
    ensures b.carId == v.carId.value && b.carName == car.name && b.userId == uid
    ensures b.pickupDate == FormatDate(v.pickupDate.value) && b.returnDate == FormatDate(v.returnDate.value)
  {
    BookingInput(
      v.carId.value, car.name, uid,
      FormatDate(v.pickupDate.value), FormatDate(v.returnDate.value),
      v.estimatedKm, v.requests, Some(Confirmed),
      v.customerName, v.customerEmail, v.customerPhone,
      Local, NotApplicable,
      NotApplicable, NotApplicable, Local, NotApplicable)
  }

  /** The recorded day strings read back as exactly the days picked. */
  lemma ManualBookingDates(v: Values, car: Car, uid: string)
    requires FieldsValid(v)
    ensures ParseIsoDate(ManualBookingData(v, car, uid).pickupDate) == v.pickupDate
    ensures ParseIsoDate(ManualBookingData(v, car, uid).returnDate) == v.returnDate
  {
    ParseFormat(v.pickupDate.value);
    ParseFormat(v.returnDate.value);
  }

  /** A booking that passed the schema always names a valid interval, so
      recording it blocks every day from pickup to return on its car. */
  lemma ManualBookingBlocksItsRange(v: Values, car: Car, uid: string, cars: map<string, CarDoc>, d: Date)
    requires Validate(v) == []
    requires v.carId.value in cars
    ensures var data := ManualBookingData(v, car, uid);
      IsInterval(data.pickupDate, data.returnDate) &&
      var after := BookingActions.CarsAfterBlock(cars, v.carId.value, data.pickupDate, data.returnDate);
      (InRange(d, v.pickupDate.value, v.returnDate.value) ==> FormatDate(d) in after[v.carId.value].bookedDates.GetOr([]))
  {
    var data := ManualBookingData(v, car, uid);
    ManualBookingDates(v, car, uid);
    assert IsInterval(data.pickupDate, data.returnDate);
    if InRange(d, v.pickupDate.value, v.returnDate.value) {
      BlockRangeCovers(cars[v.carId.value].bookedDates.GetOr([]), data.pickupDate, data.returnDate, d);
    }
  }

  /** `onSubmit`: nothing is attempted without a signed-in user or when
      the chosen car is not in the loaded fleet; otherwise the confirmed
      booking is created with an empty document form, and an error of the
      creation is the error of the submission. Only values the schema
      accepted reach it. `fault` stands for the store rejecting a write. */
  method OnSubmit(db: RecordStore, user: Option<AppUser>, cars: seq<Car>, v: Values, newId: string,
                  now: string, fault: BookingActions.CreationFault)
    returns (attempted: bool, res: Result<()>)
    requires Validate(v) == []
    requires newId !in db.bookings
    modifies db
    ensures attempted <==> user.Some? && FindCar(cars, v.carId.value).Some?
    ensures !attempted ==> db.bookings == old(db.bookings) && db.cars == old(db.cars) && res.Ok?
    ensures attempted && !db.connected ==>
              res == Err(BookingActions.NotInitialised) && db.bookings == old(db.bookings) && db.cars == old(db.cars)
    ensures attempted && db.connected && fault.InsertRejected? ==>
              res == Err(BookingActions.CreationFailed + fault.message) &&
              db.bookings == old(db.bookings) && db.cars == old(db.cars)
    ensures attempted && db.connected && !fault.InsertRejected? ==>
              var data := ManualBookingData(v, FindCar(cars, v.carId.value).value, user.value.uid);
              db.bookings == old(db.bookings)[newId := BookingActions.NewBooking(newId, data, map[], now)]
    ensures attempted && db.connected && fault.FollowUpRejected? ==>
              res == Err(BookingActions.CreationFailed + fault.message) && db.cars == old(db.cars)
    ensures attempted && db.connected && fault.NoFault? ==>
              var data := ManualBookingData(v, FindCar(cars, v.carId.value).value, user.value.uid);
              db.cars == BookingActions.CarsAfterBlock(old(db.cars), v.carId.value, data.pickupDate, data.returnDate) &&
              (res.Ok? <==> v.carId.value in old(db.cars))
    ensures db.agreements == old(db.agreements) && db.testimonials == old(db.testimonials) && db.users == old(db.users)
  {
    if user.None? {
      return false, Ok(());
    }
    var selected := FindCar(cars, v.carId.value);
    if selected.None? {
      return false, Ok(());
    }
    var data := ManualBookingData(v, selected.value, user.value.uid);
    ManualBookingDates(v, selected.value, user.value.uid);
    assert IsInterval(data.pickupDate, data.returnDate);
    var noUpload := (path: string) => "";
    res := BookingActions.CreateBookingRequest(db, data, map[], noUpload, newId, now, fault);
    assert BookingActions.CreationUrls(newId, map[], noUpload) == map[];
    attempted := true;
  }
}
