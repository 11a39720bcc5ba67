/**
  The search service: one search chains three downstream calls, geo then rate then
  profile, and answers with the profiles; any failed call ends the search with an empty
  response and no further calls.
*/
module Search {
  import opened Wrappers
  import opened Messages

  /** A downstream call the search made, with its request. */
  datatype Call =
    | GeoCall(geoReq: NearbyRequest)
    | RateCall(rateReq: GetRatesRequest)
    | ProfileCall(profileReq: GetProfilesRequest)

  /** `Search`. `geo`, `rate` and `profile` stand for the three peers; `calls` lists
      the calls made, in order. */
  method Search(
    req: SearchRequest,
    geo: NearbyRequest -> HttpResult<NearbyResponse>,
    rate: GetRatesRequest -> HttpResult<GetRatesResponse>,
    profile: GetProfilesRequest -> HttpResult<GetProfilesResponse>)
    returns (resp: SearchResponse, calls: seq<Call>)
    // The geo call is always made, with the request's coordinates.
    ensures 1 <= |calls| <= 3
    ensures calls[0] == GeoCall(NearbyRequest(req.lat, req.lon))
    // A failed geo call: an empty response, and neither rate nor profile is called.
    ensures Payload(geo(calls[0].geoReq)).None? ==> |calls| == 1 && resp.hotels == []
    // Otherwise the rate call asks for the geo ids, in order, and the request's dates.
    ensures Payload(geo(calls[0].geoReq)).Some? ==>
      |calls| >= 2 &&
      calls[1] == RateCall(GetRatesRequest(Payload(geo(calls[0].geoReq)).value.hotelIds, req.inDate, req.outDate))
    // A failed rate call: an empty response, and no profile call.
    ensures |calls| >= 2 && Payload(rate(calls[1].rateReq)).None? ==> |calls| == 2 && resp.hotels == []
    // Otherwise the profile call asks for the same geo ids, in order, and the locale.
    ensures |calls| >= 2 && Payload(rate(calls[1].rateReq)).Some? ==>
      |calls| == 3 &&
      calls[2] == ProfileCall(GetProfilesRequest(Payload(geo(calls[0].geoReq)).value.hotelIds, req.locale))
    // The response is the profile reply's profiles, in order, whatever the rates were;
    // a failed profile call gives an empty response.
    ensures |calls| == 3 ==>
      resp.hotels == match Payload(profile(calls[2].profileReq))
                     case Some(p) => p.profiles
                     case None => []
  {
    var geoReq := NearbyRequest(req.lat, req.lon);
    calls := [GeoCall(geoReq)];
    var geoResult := geo(geoReq);
    if geoResult.NoResult? || geoResult.status != 200 || geoResult.body.None? {
      return SearchResponse([]), calls;
    }
    var geoResp := geoResult.body.value;

    var rateIds := CopyAll(geoResp.hotelIds);
    var rateReq := GetRatesRequest(rateIds, req.inDate, req.outDate);
    calls := calls + [RateCall(rateReq)];
    var rateResult := rate(rateReq);
    if rateResult.NoResult? || rateResult.status != 200 || rateResult.body.None? {
      return SearchResponse([]), calls;
    }

    var profileIds := CopyAll(geoResp.hotelIds);
    var profileReq := GetProfilesRequest(profileIds, req.locale);
    calls := calls + [ProfileCall(profileReq)];
    var profileResult := profile(profileReq);
    if profileResult.NoResult? || profileResult.status != 200 || profileResult.body.None? {
      return SearchResponse([]), calls;
    }
    var profileResp := profileResult.body.value;

    var hotels := CopyAll(profileResp.profiles);
    resp := SearchResponse(hotels);
  }
}
