/** Server actions on the fleet: image upload, adding a car, a partial
    update, deletion and the availability switch. */
module CarActions {
  import opened Wrappers
  import opened Records
  import opened Seqs
  import opened CarData

  const NotInitialised := "Database not initialized"

  /** Decimal digits of a clock reading. */
  function DecimalText(n: nat): (r: string)
    ensures |r| >= 1
  {
    if n < 10 then [(48 + n) as char] else DecimalText(n / 10) + [(48 + n % 10) as char]
  }

  /** Storage path of an uploaded car image: `cars/<now>-<fileName>`. */
  function ImagePath(now: nat, fileName: string): string {
    "cars/" + DecimalText(now) + "-" + fileName
  }

  predicate NonEmpty(f: File) {
    f.size > 0
  }

  /** The URLs the upload loop collects from `images`, in order. */
  function ImageUrls(images: seq<File>, now: nat, upload: string -> string): (r: seq<string>)
    decreases |images|
  {
    if images == [] then []
    else (if images[0].size == 0 then [] else [upload(ImagePath(now, images[0].name))])
         + ImageUrls(images[1..], now, upload)
  }

  /** The loop's result, independently: one URL per non-empty image, in
      input order, each the upload of that image's path. */
  lemma {:induction false} ImageUrlsOfNonEmpty(images: seq<File>, now: nat, upload: string -> string)
    ensures var kept := Filter(images, NonEmpty);
      |ImageUrls(images, now, upload)| == |kept| &&
      forall i :: 0 <= i < |kept| ==> ImageUrls(images, now, upload)[i] == upload(ImagePath(now, kept[i].name))
    decreases |images|
  {
    if images != [] {
      ImageUrlsOfNonEmpty(images[1..], now, upload);
    }
  }

  lemma UrlsStep(images: seq<File>, i: nat, now: nat, upload: string -> string)
    requires i < |images|
    ensures ImageUrls(images[i..], now, upload) ==
            (if images[i].size == 0 then [] else [upload(ImagePath(now, images[i].name))])
            + ImageUrls(images[i + 1..], now, upload)
  {
    assert images[i..][1..] == images[i + 1..];
  }

  /** `uploadImages`: fails on an empty image list; otherwise uploads each
      non-empty image under `cars/` and returns the URLs. `now` is the
      `Date.now()` reading in milliseconds used in the file names; `uploadError` is blob storage
      rejecting an upload, with its message, which ends the loop. */
  method UploadImages(images: seq<File>, now: nat, upload: string -> string, uploadError: Option<string>)
    returns (res: Result<seq<string>>)
    ensures |images| == 0 ==> res == Err("No images provided for upload.")
    ensures |images| > 0 && uploadError.Some? && |ImageUrls(images, now, upload)| > 0 ==>
              res == Err(uploadError.value)
    ensures |images| > 0 && (uploadError.None? || |ImageUrls(images, now, upload)| == 0) ==>
              res == Ok(ImageUrls(images, now, upload))
  {
    if |images| == 0 {
      return Err("No images provided for upload.");
    }
    var imageUrls: seq<string> := [];
    var i := 0;
    while i < |images|
      invariant 0 <= i <= |images|
      invariant imageUrls + ImageUrls(images[i..], now, upload) == ImageUrls(images, now, upload)
      invariant uploadError.Some? ==> imageUrls == []
    {
      var image := images[i];
      UrlsStep(images, i, now, upload);
      if image.size != 0 {
        if uploadError.Some? {
          return Err(uploadError.value);
        }
        imageUrls := imageUrls + [upload(ImagePath(now, image.name))];
      }
      i := i + 1;
    }
    assert images[|images|..] == [];
    assert ImageUrls([], now, upload) == [];
    assert imageUrls + [] == imageUrls;
    return Ok(imageUrls);
  }

  /** What the admin form passes to `addCar`. */
  datatype CarInput = CarInput(
    name: string, carType: string, isAvailable: bool, pricePerDay: Price,
    priceEnabled: bool, specifications: seq<string>, description: Option<string>)

  /** The document `addCar` stores: the input, the uploaded images, the hint
      `<type> car`, no booked dates and the server's creation time. */
  function NewCarDoc(input: CarInput, imageUrls: seq<string>, now: string): (d: CarDoc)
    ensures d.bookedDates == Some([]) && d.images == Some(imageUrls)
    ensures d.dataAiHint == Some(input.carType + " car")
    ensures d.createdAt == Some(Stamp(now))
    ensures d.name == Some(input.name) && d.carType == Some(input.carType)
  {
    CarDoc(Some(input.name), Some(input.carType), Some(imageUrls), Some(input.carType + " car"),
           Some(input.isAvailable), Some(input.pricePerDay), Some(input.priceEnabled),
           Some(input.specifications), Some([]), Some(Stamp(now)), input.description)
  }

  /** A newly added car reads back with nothing booked, exactly the given
      images, the given flags and price, and its creation time. */
  lemma AddThenRead(id: string, input: CarInput, imageUrls: seq<string>, now: string)
    ensures var c := ToCarObject(id, NewCarDoc(input, imageUrls, now));
      c.bookedDates == [] && c.images == imageUrls && c.isAvailable == input.isAvailable &&
      c.priceEnabled == input.priceEnabled && c.pricePerDay == input.pricePerDay &&
      c.specifications == input.specifications && c.createdAt == Some(now) &&
      (input.name != "" ==> c.name == input.name)
  {
  }

  /** `addCar`: stores the new car under a fresh id. */
  method AddCar(db: RecordStore, input: CarInput, imageUrls: seq<string>, newId: string, now: string,
                writeFails: bool) returns (res: Result<()>)
    requires newId !in db.cars
    modifies db
    ensures !db.connected ==> res == Err("Database connection is not available.")
    ensures db.connected && writeFails ==> res == Err("Failed to add car to the database.")
    ensures res.Ok? <==> db.connected && !writeFails
    ensures db.cars == (if res.Ok? then old(db.cars)[newId := NewCarDoc(input, imageUrls, now)] else old(db.cars))
    ensures db.bookings == old(db.bookings) && db.agreements == old(db.agreements)
    ensures db.testimonials == old(db.testimonials) && db.users == old(db.users)
  {
    if !db.connected {
      return Err("Database connection is not available.");
    }
    if writeFails {
      return Err("Failed to add car to the database.");
    }
    db.cars := db.cars[newId := NewCarDoc(input, imageUrls, now)];
    return Ok(());
  }

  /** The fields an update may carry; `None` means not supplied. */
  datatype CarPatch = CarPatch(
    name: Option<string>, carType: Option<string>, dataAiHint: Option<string>,
    isAvailable: Option<bool>, pricePerDay: Option<Price>, priceEnabled: Option<bool>,
    specifications: Option<seq<string>>, bookedDates: Option<seq<string>>,
    createdAt: Option<string>, description: Option<string>)

  function Pick<T>(supplied: Option<T>, stored: Option<T>): (r: Option<T>)
    ensures supplied.Some? ==> r == supplied
    ensures supplied.None? ==> r == stored
  {
    if supplied.Some? then supplied else stored
  }

  /** `updateDoc(car, patch)`: each supplied field replaces the stored one,
      the rest and the images stay; a supplied creation time is stored as
      the plain string it is. */
  function ApplyCarPatch(d: CarDoc, p: CarPatch): (r: CarDoc)
    ensures r.images == d.images
    ensures p.name.Some? ==> r.name == p.name
    ensures p.name.None? ==> r.name == d.name
    ensures p.carType.Some? ==> r.carType == p.carType
    ensures p.carType.None? ==> r.carType == d.carType
    ensures p.dataAiHint.Some? ==> r.dataAiHint == p.dataAiHint
    ensures p.dataAiHint.None? ==> r.dataAiHint == d.dataAiHint
    ensures p.isAvailable.Some? ==> r.isAvailable == p.isAvailable
    ensures p.isAvailable.None? ==> r.isAvailable == d.isAvailable
    ensures p.pricePerDay.Some? ==> r.pricePerDay == p.pricePerDay
    ensures p.pricePerDay.None? ==> r.pricePerDay == d.pricePerDay
    ensures p.priceEnabled.Some? ==> r.priceEnabled == p.priceEnabled
    ensures p.priceEnabled.None? ==> r.priceEnabled == d.priceEnabled
    ensures p.specifications.Some? ==> r.specifications == p.specifications
    ensures p.specifications.None? ==> r.specifications == d.specifications
    ensures p.bookedDates.Some? ==> r.bookedDates == p.bookedDates
    ensures p.bookedDates.None? ==> r.bookedDates == d.bookedDates
    ensures p.createdAt.Some? ==> r.createdAt == Some(Plain(p.createdAt.value))
    ensures p.createdAt.None? ==> r.createdAt == d.createdAt
    ensures p.description.Some? ==> r.description == p.description
    ensures p.description.None? ==> r.description == d.description
  {
    CarDoc(Pick(p.name, d.name), Pick(p.carType, d.carType), d.images, Pick(p.dataAiHint, d.dataAiHint),
           Pick(p.isAvailable, d.isAvailable), Pick(p.pricePerDay, d.pricePerDay),
           Pick(p.priceEnabled, d.priceEnabled), Pick(p.specifications, d.specifications),
           Pick(p.bookedDates, d.bookedDates),
           if p.createdAt.Some? then Some(Plain(p.createdAt.value)) else d.createdAt,
           Pick(p.description, d.description))
  }

  const EmptyPatch := CarPatch(None, None, None, None, None, None, None, None, None, None)

  /** An empty update changes nothing, and applying the same update twice is
      applying it once. */
  lemma ApplyCarPatchLaws(d: CarDoc, p: CarPatch)
    ensures ApplyCarPatch(d, EmptyPatch) == d
    ensures ApplyCarPatch(ApplyCarPatch(d, p), p) == ApplyCarPatch(d, p)
  {
  }

  /** Unlike blocking, an update that supplies booked dates replaces the
      whole list: dates booked before and not in the supplied list are gone. */
  lemma PatchReplacesBookedDates(d: CarDoc, p: CarPatch, date: string)
    requires p.bookedDates.Some? && date !in p.bookedDates.value
    requires d.bookedDates.Some? && date in d.bookedDates.value
    ensures date !in ToCarObject("", ApplyCarPatch(d, p)).bookedDates
  {
  }

  /** `updateCar`: a missing car makes the update fail. */
  method UpdateCar(db: RecordStore, carId: string, patch: CarPatch, writeFails: bool) returns (res: Result<()>)
    modifies db
    ensures !db.connected ==> res == Err(NotInitialised)
    ensures db.connected && (writeFails || carId !in old(db.cars)) ==> res == Err("Failed to update car in the database.")
    ensures res.Ok? <==> db.connected && !writeFails && carId in old(db.cars)
    ensures db.cars == (if res.Ok? then old(db.cars)[carId := ApplyCarPatch(old(db.cars)[carId], patch)] else old(db.cars))
    ensures db.bookings == old(db.bookings) && db.agreements == old(db.agreements)
    ensures db.testimonials == old(db.testimonials) && db.users == old(db.users)
  {
    if !db.connected {
      return Err(NotInitialised);
    }
    if writeFails || carId !in db.cars {
      return Err("Failed to update car in the database.");
    }
    db.cars := db.cars[carId := ApplyCarPatch(db.cars[carId], patch)];
    return Ok(());
  }

  /** The stored car lists at least one image. */
  predicate HasImages(d: CarDoc) {
    d.images.Some? && |d.images.value| > 0
  }

  /** `deleteCar`: deletes the car's images from blob storage, then removes
      the car's document; its bookings are left as they are. A rejected
      image deletion, `storageError` with its message, fails the call
      before the document is removed; `deleteError` is the store then
      rejecting the removal of the document. */
  method DeleteCar(db: RecordStore, carId: string, storageError: Option<string>, deleteError: Option<string>)
    returns (res: Result<()>)
    modifies db
    ensures !db.connected ==> res == Err(NotInitialised)
    ensures db.connected && carId !in old(db.cars) ==> res == Err("Car not found")
    ensures db.connected && carId in old(db.cars) && HasImages(old(db.cars)[carId]) && storageError.Some? ==>
              res == Err(storageError.value)
    ensures (db.connected && carId in old(db.cars) && deleteError.Some? &&
             (storageError.None? || !HasImages(old(db.cars)[carId]))) ==>
              res == Err(deleteError.value)
    ensures res.Ok? <==> db.connected && carId in old(db.cars) &&
                         (storageError.None? || !HasImages(old(db.cars)[carId])) && deleteError.None?
    ensures db.cars == (if res.Ok? then old(db.cars) - {carId} else old(db.cars))
    ensures db.bookings == old(db.bookings) && db.agreements == old(db.agreements)
    ensures db.testimonials == old(db.testimonials) && db.users == old(db.users)
  {
    if !db.connected {
      return Err(NotInitialised);
    }
    if carId !in db.cars {
      return Err("Car not found");
    }
    if HasImages(db.cars[carId]) && storageError.Some? {
      return Err(storageError.value);
    }
    if deleteError.Some? {
      return Err(deleteError.value);
    }
    db.cars := db.cars - {carId};
    return Ok(());
  }

  /** The stored car after `toggleCarAvailability(id, currentState)`. */
  function Toggled(d: CarDoc, currentState: bool): (r: CarDoc)
    ensures r.isAvailable == Some(!currentState)
    ensures r == d.(isAvailable := Some(!currentState))
  {
    ApplyCarPatch(d, EmptyPatch.(isAvailable := Some(!currentState)))
  }

  /** The flag written is the negation of what the caller saw, not of what
      is stored: a toggle sent with a stale state leaves a car as it is, and
      a toggle with the fresh state flips what the page reads. */
  lemma ToggleUsesCallerState(id: string, d: CarDoc, currentState: bool)
    ensures d.isAvailable == Some(!currentState) ==> Toggled(d, currentState) == d
    ensures ToCarObject(id, d).isAvailable == currentState ==>
              ToCarObject(id, Toggled(d, currentState)).isAvailable == !ToCarObject(id, d).isAvailable
  {
  }

  /** `toggleCarAvailability(carId, currentState)`. */
  method ToggleCarAvailability(db: RecordStore, carId: string, currentState: bool, writeFails: bool)
    returns (res: Result<()>)
    modifies db
    ensures !db.connected ==> res == Err(NotInitialised)
    ensures db.connected && (writeFails || carId !in old(db.cars)) ==> res == Err("Failed to update car availability.")
    ensures res.Ok? <==> db.connected && !writeFails && carId in old(db.cars)
    ensures db.cars == (if res.Ok? then old(db.cars)[carId := Toggled(old(db.cars)[carId], currentState)] else old(db.cars))
    ensures db.bookings == old(db.bookings) && db.agreements == old(db.agreements)
    ensures db.testimonials == old(db.testimonials) && db.users == old(db.users)
  {
    if !db.connected {
      return Err(NotInitialised);
    }
    if writeFails || carId !in db.cars {
      return Err("Failed to update car availability.");
    }
    db.cars := db.cars[carId := db.cars[carId].(isAvailable := Some(!currentState))];
    return Ok(());
  }
}
