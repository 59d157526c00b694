/** The admin dashboard's "add a car" form: its schema, the parsing of the
    specifications text, and the submit sequence upload, then insert. */
module AdminDashboard {
  import opened Wrappers
  import opened Records
  import opened Forms
  import opened Text
  import opened Seqs
  import CarActions

  const MaxFileSize := 5 * 1024 * 1024
  const AcceptedImageTypes: seq<string> := ["image/jpeg", "image/jpg", "image/png", "image/webp"]

  datatype CarFormValues = CarFormValues(
    name: string, carType: Option<string>, isAvailable: bool, pricePerDay: Price,
    priceEnabled: bool, images: Option<seq<File>>, specifications: Option<string>)

  const NameError := FieldError("name", "Car name must be at least 2 characters.")
  const NoImageError := FieldError("images", "Please add at least one image.")
  const SizeError := FieldError("images", "Max file size is 5MB.")
  const TypeError := FieldError("images", ".jpg, .jpeg, .png and .webp files are accepted.")

  function PriceErrors(p: Price): seq<FieldError> {
    (if p.usd < 0.0 then [FieldError("pricePerDay.usd", "Price must be a positive number.")] else [])
    + (if p.lkr < 0.0 then [FieldError("pricePerDay.lkr", "Price must be a positive number.")] else [])
    + (if p.eur < 0.0 then [FieldError("pricePerDay.eur", "Price must be a positive number.")] else [])
  }

  predicate SizesOk(files: seq<File>) {
    forall i :: 0 <= i < |files| ==> files[i].size <= MaxFileSize
  }

  predicate TypesOk(files: seq<File>) {
    forall i :: 0 <= i < |files| ==> files[i].mimeType in AcceptedImageTypes
  }

  /** The three image refinements; each one runs whatever the others say. */
  function ImageErrors(images: Option<seq<File>>): seq<FieldError> {
    (if images.None? || |images.value| < 1 then [NoImageError] else [])
    + (if images.Some? && !SizesOk(images.value) then [SizeError] else [])
    + (if images.Some? && !TypesOk(images.value) then [TypeError] else [])
  }

  /** `carFormSchema`. */
  function Validate(v: CarFormValues): (errs: seq<FieldError>)
    ensures errs == [] <==>
              |v.name| >= 2 && v.pricePerDay.usd >= 0.0 && v.pricePerDay.lkr >= 0.0 && v.pricePerDay.eur >= 0.0 &&
              v.images.Some? && |v.images.value| >= 1 && SizesOk(v.images.value) && TypesOk(v.images.value)
    ensures |v.name| < 2 ==> NameError in errs
    ensures v.images.None? || |v.images.value| == 0 ==> NoImageError in errs
    ensures v.images.Some? && (exists i :: 0 <= i < |v.images.value| && v.images.value[i].size > MaxFileSize) ==>
              SizeError in errs
    ensures v.images.Some? && (exists i :: 0 <= i < |v.images.value| && v.images.value[i].mimeType !in AcceptedImageTypes) ==>
              TypeError in errs
  {
    (if |v.name| < 2 then [NameError] else []) + PriceErrors(v.pricePerDay) + ImageErrors(v.images)
  }

  /** A file too big and of the wrong type gets both complaints at once. */
  lemma RefinementsAreIndependent(v: CarFormValues, f: File)
    requires v.images == Some([f]) && f.size > MaxFileSize && f.mimeType == "image/gif"
    ensures SizeError in Validate(v) && TypeError in Validate(v) && NoImageError !in Validate(v)
  {
    assert v.images.value[0] == f;
  }

  /** The separator the code splits on: a backslash followed by `n`. */
  const Separator := ['\\', 'n']

  predicate NotBlank(s: string) {
    !IsBlank(s)
  }

  /** The specifications list: the text split at each backslash-`n` pair,
      pieces that are all white space dropped, kept pieces untrimmed. */
  function ParseSpecifications(text: Option<string>): (r: seq<string>)
    ensures text.None? || text == Some("") ==> r == []
    ensures forall i :: 0 <= i < |r| ==> !IsBlank(r[i])
  {
    if text.None? || text.value == "" then [] else Filter(Split(text.value, Separator), NotBlank)
  }

  /** Every kept entry is one of the pieces between separators, and the
      pieces joined again by the separator give back the text. */
  lemma ParseSpecificationsPieces(text: string)
    requires text != ""
    ensures forall s :: s in ParseSpecifications(Some(text)) <==> s in Split(text, Separator) && !IsBlank(s)
    ensures Join(Split(text, Separator), Separator) == text
  {
    forall s ensures s in ParseSpecifications(Some(text)) <==> s in Split(text, Separator) && !IsBlank(s) {
      FilterMembership(Split(text, Separator), NotBlank, s);
    }
    JoinSplit(text, Separator);
  }

  /** A real line break is not a separator: a non-blank text without the
      backslash-`n` pair is a single specification, line breaks and all. */
  lemma NewlineIsNotASeparator(text: string)
    requires !Contains(text, Separator) && !IsBlank(text)
    ensures ParseSpecifications(Some(text)) == [text]
  {
    SplitAbsent(text, Separator);
    assert text != "";
    assert Filter([text], NotBlank) == [text] + Filter([text][1..], NotBlank);
  }

  /** The car data the form hands to `addCar`: a missing type becomes "". */
  function CarDataOf(v: CarFormValues): (c: CarActions.CarInput)
    ensures c.carType == v.carType.GetOr("") && c.name == v.name
    ensures c.specifications == ParseSpecifications(v.specifications)
    ensures c.description == None
  {
    CarActions.CarInput(v.name, v.carType.GetOr(""), v.isAvailable, v.pricePerDay, v.priceEnabled,
                        ParseSpecifications(v.specifications), None)
  }

  /** `onSubmit` on values the schema accepted: the images are uploaded, and
      the car is added only when at least one URL came back. A failure is
      caught and reported; the result says what was shown. `uploadError`
      is blob storage rejecting an upload, `writeFails` the store rejecting
      the insert. */
  method OnSubmit(db: RecordStore, v: CarFormValues, clock: nat, now: string, upload: string -> string,
                  uploadError: Option<string>, newId: string, writeFails: bool) returns (res: Result<()>)
    requires Validate(v) == []
    requires newId !in db.cars
    modifies db
    ensures var urls := CarActions.ImageUrls(v.images.value, clock, upload);
      db.cars == (if |urls| > 0 && uploadError.None? && db.connected && !writeFails
                  then old(db.cars)[newId := CarActions.NewCarDoc(CarDataOf(v), urls, now)]
                  else old(db.cars))
    ensures res.Ok? <==> |CarActions.ImageUrls(v.images.value, clock, upload)| > 0 && uploadError.None? &&
                         db.connected && !writeFails
    ensures db.bookings == old(db.bookings) && db.agreements == old(db.agreements)
    ensures db.testimonials == old(db.testimonials) && db.users == old(db.users)
  {
    // The schema guarantees at least one image, so the upload cannot
    // report an empty image list.
    var uploaded := CarActions.UploadImages(v.images.value, clock, upload, uploadError);
    if uploaded.Err? {
      return Err(uploaded.msg);
    }
    if |uploaded.value| == 0 {
      return Err("Image upload failed, no URLs returned.");
    }
    res := CarActions.AddCar(db, CarDataOf(v), uploaded.value, newId, now, writeFails);
  }
}
