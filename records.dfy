/** The records the application keeps in its document store, and the store
    itself: one keyed collection per record kind. */
module Records {
  import opened Wrappers

  /** Lifecycle of a booking request. */
  datatype Status = Pending | Confirmed | Canceled

  /** The text the store holds for a status. */
  function StatusName(s: Status): string {
    match s
    case Pending => "pending"
    case Confirmed => "confirmed"
    case Canceled => "canceled"
  }

  datatype Residency = Local | Tourist

  /** An uploaded file as the form hands it over. */
  datatype File = File(name: string, size: nat, mimeType: string)

  /** A `bookingRequests` document. `documentUrls` holds the `<field>Url`
      entries written after the documents are uploaded; `createdAt` is the
      server's time of the insert. */
  datatype BookingRequest = BookingRequest(
    id: string, carId: string, carName: string, userId: string,
    pickupDate: string, returnDate: string,
    estimatedKm: Option<int>, requests: Option<string>, status: Status,
    customerName: string, customerEmail: string, customerPhone: string,
    customerResidency: Residency, customerNicOrPassport: string,
    guarantorName: string, guarantorPhone: string,
    guarantorResidency: Residency, guarantorNicOrPassport: string,
    documentUrls: map<string, string>, createdAt: string)

  /** What a caller passes to `createBookingRequest`. */
  datatype BookingInput = BookingInput(
    carId: string, carName: string, userId: string,
    pickupDate: string, returnDate: string,
    estimatedKm: Option<int>, requests: Option<string>, status: Option<Status>,
    customerName: string, customerEmail: string, customerPhone: string,
    customerResidency: Residency, customerNicOrPassport: string,
    guarantorName: string, guarantorPhone: string,
    guarantorResidency: Residency, guarantorNicOrPassport: string)

  /** Daily price in the three display currencies. */
  datatype Price = Price(usd: real, lkr: real, eur: real)

  /** A stored creation time: a store timestamp, or text written by hand. */
  datatype CreatedAt = Stamp(iso: string) | Plain(text: string)

  /** A `cars` document as stored: any field may be missing. */
  datatype CarDoc = CarDoc(
    name: Option<string>, carType: Option<string>, images: Option<seq<string>>,
    dataAiHint: Option<string>, isAvailable: Option<bool>, pricePerDay: Option<Price>,
    priceEnabled: Option<bool>, specifications: Option<seq<string>>,
    bookedDates: Option<seq<string>>, createdAt: Option<CreatedAt>,
    description: Option<string>)

  /** A field value of a loosely typed document. */
  datatype Value = Str(s: string) | Num(x: real) | ServerTime(iso: string)

  /** A loosely typed document: field name to value. */
  type Doc = map<string, Value>

  datatype Moderation = AwaitingReview | Approved

  /** The text the store holds for a testimonial status. */
  function ModerationName(m: Moderation): string {
    match m
    case AwaitingReview => "pending"
    case Approved => "approved"
  }

  /** A `testimonials` document. `createdAt` is the store's clock reading,
      kept as a number because it is the key the newest-first listing
      sorts by; the other records keep theirs as the ISO string the
      readers return. */
  datatype Testimonial = Testimonial(
    id: string, userId: string, name: string, comment: string, rating: int,
    status: Moderation, createdAt: int)

  /** What a caller passes to `createTestimonial`. */
  datatype TestimonialData = TestimonialData(userId: string, name: string, comment: string, rating: int)

  /** A `users` document; `createdAt` is the server's time of the write. */
  datatype UserProfile = UserProfile(
    uid: string, email: Option<string>, displayName: Option<string>,
    phone: Option<string>, role: string, createdAt: string)

  /** The signed-in user as the authentication context exposes it. */
  datatype AppUser = AppUser(
    uid: string, email: Option<string>, displayName: Option<string>,
    phone: Option<string>, role: string)

  /** The document store. `connected` is false when the client could not be
      initialised, which every operation checks first. */
  class RecordStore {
    const connected: bool
    var cars: map<string, CarDoc>
    var bookings: map<string, BookingRequest>
    var agreements: map<string, Doc>
    var testimonials: map<string, Testimonial>
    var users: map<string, UserProfile>

    constructor (connected: bool)
      ensures this.connected == connected
      ensures cars == map[] && bookings == map[] && agreements == map[]
      ensures testimonials == map[] && users == map[]
    {
      this.connected := connected;
      cars, bookings, agreements := map[], map[], map[];
      testimonials, users := map[], map[];
    }
  }
}
