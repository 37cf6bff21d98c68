/** The hotel record of `src/interface/hotels.interface.ts`, and the loose
    JavaScript objects the services pass around (`Partial<Hotel>`, stored
    documents, user profiles). A JavaScript object is a map from field names
    to values, so an object spread `{ ...a, ...b }` is the map union `a + b`
    (the right-hand side wins on shared keys). */
module Records {
  import opened Common

  /** Number of rooms of one type on offer and their nightly price.
      JavaScript numbers are modelled as exact reals. */
  datatype RoomInventory = RoomInventory(available: real, price: real)

  /** The three room types every hotel declares. */
  datatype Rooms = Rooms(singleRoom: RoomInventory, twinRoom: RoomInventory, queenRoom: RoomInventory)

  datatype GalleryImage = GalleryImage(url: string, description: Option<string>)

  /** Star category: only 3, 4 or 5. */
  type Category = c: int | c == 3 || c == 4 || c == 5 witness 3

  /** A browser `File` chosen by the user: its name, MIME type and size in
      bytes. */
  datatype File = File(name: string, mimeType: string, size: nat)

  /** A point in time (a `Date` or a server timestamp), as milliseconds. */
  type Timestamp = int

  datatype Hotel = Hotel(
    id: string,
    name: string,
    description: string,
    country: string,
    state: string,
    city: string,
    logo: string,
    category: Category,
    rating: real,
    rooms: Rooms,
    gallery: seq<GalleryImage>,
    createdBy: string,
    createdAt: Timestamp,
    updatedAt: Timestamp)

  /** The values a field of a hotel or user object can hold. */
  datatype Value =
    | Str(s: string)
    | Num(n: real)
    | Bool(b: bool)
    | Time(t: Timestamp)
    | Images(images: seq<GalleryImage>)
    | RoomsValue(rooms: Rooms)

  /** A JavaScript object: the fields it has, and their values. */
  type Record = map<string, Value>

  const ID := "id"
  const NAME := "name"
  const DESCRIPTION := "description"
  const COUNTRY := "country"
  const STATE := "state"
  const CITY := "city"
  const LOGO := "logo"
  const CATEGORY := "category"
  const RATING := "rating"
  const ROOMS := "rooms"
  const GALLERY := "gallery"
  const CREATED_BY := "createdBy"
  const CREATED_AT := "createdAt"
  const UPDATED_AT := "updatedAt"
  const EMAIL := "email"
  const ROLE := "role"
  const AVATAR := "avatar"

  /** JavaScript truthiness of a field value (objects, arrays and dates are
      always truthy). */
  predicate Truthy(v: Value) {
    match v
    case Str(s) => s != ""
    case Num(n) => n != 0.0
    case Bool(b) => b
    case _ => true
  }

  /** `obj.field` used as a condition: present and truthy. */
  predicate HasTruthy(r: Record, field: string) {
    field in r && Truthy(r[field])
  }

  /** `hotel.gallery` of a partial hotel, with a missing or mistyped field
      read as no images. */
  function GalleryOf(r: Record): seq<GalleryImage> {
    if GALLERY in r && r[GALLERY].Images? then r[GALLERY].images else []
  }

  /** A hotel as the object it is stored as. */
  function HotelToRecord(h: Hotel): Record {
    map[
      ID := Str(h.id), NAME := Str(h.name), DESCRIPTION := Str(h.description),
      COUNTRY := Str(h.country), STATE := Str(h.state), CITY := Str(h.city),
      LOGO := Str(h.logo), CATEGORY := Num(h.category as real), RATING := Num(h.rating),
      ROOMS := RoomsValue(h.rooms), GALLERY := Images(h.gallery), CREATED_BY := Str(h.createdBy),
      CREATED_AT := Time(h.createdAt), UPDATED_AT := Time(h.updatedAt)]
  }

  predicate IsStr(r: Record, field: string) { field in r && r[field].Str? }
  predicate IsTime(r: Record, field: string) { field in r && r[field].Time? }

  /** The object carries every field of `Hotel` with the declared type. */
  predicate HasHotelShape(r: Record) {
    && IsStr(r, ID) && IsStr(r, NAME) && IsStr(r, DESCRIPTION) && IsStr(r, COUNTRY)
    && IsStr(r, STATE) && IsStr(r, CITY) && IsStr(r, LOGO) && IsStr(r, CREATED_BY)
    && CATEGORY in r && r[CATEGORY].Num? && r[CATEGORY].n in {3.0, 4.0, 5.0}
    && RATING in r && r[RATING].Num?
    && ROOMS in r && r[ROOMS].RoomsValue?
    && GALLERY in r && r[GALLERY].Images?
    && IsTime(r, CREATED_AT) && IsTime(r, UPDATED_AT)
  }

  /** `obj as Hotel`, where it is sound: `None` when a field is missing or
      of the wrong type. */
  function RecordToHotel(r: Record): (h: Option<Hotel>)
    ensures h.Some? <==> HasHotelShape(r)
    ensures h.Some? ==> h.value.id == r[ID].s && h.value.gallery == r[GALLERY].images
  {
    if !HasHotelShape(r) then None
    else
      var n := r[CATEGORY].n;
      Some(Hotel(
        r[ID].s, r[NAME].s, r[DESCRIPTION].s, r[COUNTRY].s, r[STATE].s, r[CITY].s, r[LOGO].s,
        if n == 3.0 then 3 else if n == 4.0 then 4 else 5,
        r[RATING].n, r[ROOMS].rooms, r[GALLERY].images, r[CREATED_BY].s,
        r[CREATED_AT].t, r[UPDATED_AT].t))
  }

  /** Storing a hotel as an object and reading it back as a `Hotel` loses
      nothing. */
  lemma HotelRecordRoundTrip(h: Hotel)
    ensures RecordToHotel(HotelToRecord(h)) == Some(h)
  {
    var r := HotelToRecord(h);
    assert HasHotelShape(r);
  }
}
