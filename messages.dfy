/**
  The messages the services exchange (the `hotelreservation` protocol-buffer schema,
  with the fields the services read or write), and the outcome of one call to a
  downstream service.
*/
module Messages {
  import opened Wrappers

  // Geo
  datatype NearbyRequest = NearbyRequest(lat: real, lon: real)
  datatype NearbyResponse = NearbyResponse(hotelIds: seq<string>)
  datatype Point = Point(pid: string, plat: real, plon: real)

  // Rate
  datatype RoomType = RoomType(
    bookableRate: real, code: string, roomDescription: string,
    totalRate: real, totalRateInclusive: real)
  datatype RatePlan = RatePlan(
    hotelId: string, code: string, inDate: string, outDate: string, roomType: RoomType)
  datatype GetRatesRequest = GetRatesRequest(hotelIds: seq<string>, inDate: string, outDate: string)
  datatype GetRatesResponse = GetRatesResponse(ratePlans: seq<RatePlan>)

  // Profile
  datatype Address = Address(
    streetNumber: string, streetName: string, city: string, state: string,
    country: string, postalCode: string, lat: real, lon: real)
  datatype HotelProfile = HotelProfile(
    id: string, name: string, phoneNumber: string, description: string, address: Address)
  datatype GetProfilesRequest = GetProfilesRequest(hotelIds: seq<string>, locale: string)
  datatype GetProfilesResponse = GetProfilesResponse(profiles: seq<HotelProfile>)

  // Search
  datatype SearchRequest = SearchRequest(
    customerName: string, inDate: string, outDate: string, lat: real, lon: real, locale: string)
  datatype SearchResponse = SearchResponse(hotels: seq<HotelProfile>)

  // Recommendation
  datatype RecommendRequest = RecommendRequest(lat: real, lon: real, require: string, locale: string)
  datatype RecommendResponse = RecommendResponse(hotels: seq<HotelProfile>)

  // Reservation
  datatype Reservation = Reservation(
    hotelId: string, customerName: string, inDate: string, outDate: string, number: int)
  datatype ReservationRequest = ReservationRequest(
    customerName: string, hotelId: string, inDate: string, outDate: string,
    roomNumber: int, username: string, password: string)
  datatype ReservationResponse = ReservationResponse(message: string)

  // User
  datatype UserRequest = UserRequest(username: string, password: string)
  datatype UserResponse = UserResponse(message: string)
  datatype CheckUserRequest = CheckUserRequest(username: string, password: string)
  // `found` is the schema's `exists` field (a reserved word in Dafny)
  datatype CheckUserResponse = CheckUserResponse(found: bool)

  /** What an HTTP `Post` to a peer yields: no result at all (transport failure), or a
      status code with the body's parse outcome (`None` when deserialisation fails). */
  datatype HttpResult<T> = NoResult | Response(status: int, body: Option<T>)

  /** The parsed payload of a call, present only for status 200 with a body that parsed. */
  function Payload<T>(r: HttpResult<T>): (p: Option<T>)
    ensures p.Some? <==> r.Response? && r.status == 200 && r.body.Some?
    ensures p.Some? ==> r.body == p
  {
    match r
    case Response(200, Some(v)) => Some(v)
    case _ => None
  }

  /** Appends the elements one at a time, as the generated `add_*` builders of a
      repeated field do. */
  method CopyAll<T>(xs: seq<T>) returns (out: seq<T>)
    ensures out == xs
  {
    out := [];
    var i := 0;
    while i < |xs|
      invariant 0 <= i <= |xs|
      invariant out == xs[..i]
    {
      out := out + [xs[i]];
      i := i + 1;
    }
  }
}
