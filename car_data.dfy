/** Reading cars out of the store: the normalised `Car` object a stored
    document becomes, and the fleet queries built on it. */
module CarData {
  import opened Wrappers
  import opened Records

  /** A car as the pages receive it: every field present. */
  datatype Car = Car(
    id: string, name: string, carType: string, images: seq<string>, dataAiHint: string,
    isAvailable: bool, pricePerDay: Price, priceEnabled: bool,
    specifications: seq<string>, bookedDates: seq<string>,
    createdAt: Option<string>, description: string)

  const ZeroPrice := Price(0.0, 0.0, 0.0)

  /** `text || fallback` for an optional text field. */
  function OrText(s: Option<string>, fallback: string): (r: string)
    ensures s.Some? && s.value != "" ==> r == s.value
    ensures s == None || s == Some("") ==> r == fallback
  {
    if s.Some? && s.value != "" then s.value else fallback
  }

  /** The fallback description: "A reliable <type, or car> for your travels." */
  function DefaultDescription(carType: string): string {
    "A reliable " + (if carType == "" then "car" else carType) + " for your travels."
  }

  /** `toCarObject`: missing or empty text becomes "", missing lists become
      empty, the two flags are true only when stored as `true`, a missing
      price is zero in every currency, a missing description is the
      fallback sentence, and `createdAt` is kept or null. */
  function ToCarObject(id: string, d: CarDoc): (c: Car)
    ensures c.id == id
    ensures c.isAvailable <==> d.isAvailable == Some(true)
    ensures c.priceEnabled <==> d.priceEnabled == Some(true)
    ensures d.name == None ==> c.name == ""
    ensures d.carType == None ==> c.carType == ""
    ensures d.images == None ==> c.images == []
    ensures d.specifications == None ==> c.specifications == []
    ensures d.bookedDates == None ==> c.bookedDates == []
    ensures d.bookedDates.Some? ==> c.bookedDates == d.bookedDates.value
    ensures d.pricePerDay == None ==> c.pricePerDay == ZeroPrice
    ensures d.createdAt == None ==> c.createdAt == None
    ensures c.description != ""
    ensures d.description == None ==> c.description == DefaultDescription(c.carType)
  {
    Car(
      id,
      OrText(d.name, ""),
      OrText(d.carType, ""),
      d.images.GetOr([]),
      OrText(d.dataAiHint, ""),
      d.isAvailable == Some(true),
      d.pricePerDay.GetOr(ZeroPrice),
      d.priceEnabled == Some(true),
      d.specifications.GetOr([]),
      d.bookedDates.GetOr([]),
      match d.createdAt
      case Some(Stamp(iso)) => Some(iso)
      case Some(Plain(text)) => if text != "" then Some(text) else None
      case None => None,
      OrText(d.description, DefaultDescription(OrText(d.carType, ""))))
  }

  /** An idealised write-back of a car object as a document with every
      field present, `createdAt` as a timestamp. No code in the
      application writes a normalised car back; the lemma below states
      that normalising loses nothing it would need. */
  function StoredForm(c: Car): CarDoc {
    CarDoc(Some(c.name), Some(c.carType), Some(c.images), Some(c.dataAiHint),
           Some(c.isAvailable), Some(c.pricePerDay), Some(c.priceEnabled),
           Some(c.specifications), Some(c.bookedDates),
           match c.createdAt case Some(s) => Some(Stamp(s)) case None => None,
           Some(c.description))
  }

  /** Normalising is idempotent: a normalised car, stored and read again,
      comes back unchanged. */
  lemma ToCarObjectIdempotent(id: string, d: CarDoc)
    ensures ToCarObject(id, StoredForm(ToCarObject(id, d))) == ToCarObject(id, d)
  {
  }

  /** `getAllCars`: the query's documents, in the query's order, as car
      objects; no store gives no cars. */
  function CarObjects(connected: bool, snapshot: seq<(string, CarDoc)>): (r: seq<Car>)
    ensures !connected ==> r == []
    ensures connected ==> |r| == |snapshot|
    ensures connected ==> forall i :: 0 <= i < |r| ==> r[i] == ToCarObject(snapshot[i].0, snapshot[i].1)
  {
    if !connected then []
    else seq(|snapshot|, i requires 0 <= i < |snapshot| => ToCarObject(snapshot[i].0, snapshot[i].1))
  }

  /** `getFeaturedCars`: the first three cars of the newest-first query. */
  function FeaturedCars(connected: bool, newestFirst: seq<(string, CarDoc)>): (r: seq<Car>)
    ensures |r| <= 3
    ensures connected ==> |r| == if |newestFirst| < 3 then |newestFirst| else 3
    ensures |r| <= |CarObjects(connected, newestFirst)|
    ensures r == CarObjects(connected, newestFirst)[..|r|]
  {
    var all := CarObjects(connected, newestFirst);
    if |all| <= 3 then all else all[..3]
  }

  /** `getCarById`: the normalised car, or null when the store is missing
      or holds no such document. */
  function GetCarById(db: RecordStore, id: string): (r: Option<Car>)
    reads db
    ensures r.Some? <==> db.connected && id in db.cars
    ensures r.Some? ==> r.value.id == id && r.value == ToCarObject(id, db.cars[id])
  {
    if db.connected && id in db.cars then Some(ToCarObject(id, db.cars[id])) else None
  }
}
