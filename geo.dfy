/**
  The geo service: a list of hotel locations, the nearest in-radius hotels to a point,
  and the location of one hotel. The great-circle distance is a parameter.
*/
module Geo {
  import opened Text
  import opened Messages

  const MaxSearchResults: nat := 5
  /** Kilometres. */
  const MaxSearchRadius: real := 10.0

  datatype HotelLocation = HotelLocation(id: string, lat: real, lon: real)

  /** A hotel id paired with its distance from the query point. */
  datatype Candidate = Candidate(id: string, distance: real)

  /** `calculateDistance(lat1, lon1, lat2, lon2)`, in kilometres. */
  type Distance = (real, real, real, real) -> real

  function Min(a: nat, b: nat): nat
  {
    if a <= b then a else b
  }

  /** The hotels within the search radius of (lat, lon), in list order, with their
      distances. */
  function Candidates(hotels: seq<HotelLocation>, lat: real, lon: real, distance: Distance): seq<Candidate>
  {
    if hotels == [] then []
    else
      var h := hotels[|hotels| - 1];
      var d := distance(lat, lon, h.lat, h.lon);
      Candidates(hotels[..|hotels| - 1], lat, lon, distance)
      + (if d <= MaxSearchRadius then [Candidate(h.id, d)] else [])
  }

  /** A candidate is exactly a listed hotel within the radius, with its distance. */
  lemma {:induction false} CandidatesMembers(hotels: seq<HotelLocation>, lat: real, lon: real, distance: Distance)
    ensures forall c :: c in Candidates(hotels, lat, lon, distance) <==>
      exists h :: h in hotels && c == Candidate(h.id, distance(lat, lon, h.lat, h.lon)) && c.distance <= MaxSearchRadius
  {
    if hotels != [] {
      var init := hotels[..|hotels| - 1];
      CandidatesMembers(init, lat, lon, distance);
      assert hotels == init + [hotels[|hotels| - 1]];
    }
  }

  predicate SortedByDistance(s: seq<Candidate>)
  {
    forall i, j :: 0 <= i < j < |s| ==> s[i].distance <= s[j].distance
  }

  /** Exchanges two elements of the array. */
  method Swap(a: array<Candidate>, p: nat, q: nat)
    requires p < a.Length && q < a.Length
    modifies a
    ensures a[..] == old(a[..])[p := old(a[q])][q := old(a[p])]
    ensures multiset(a[..]) == multiset(old(a[..]))
  {
    a[p], a[q] := a[q], a[p];
  }

  /** One insertion step: moves `a[i]` left past every larger distance, so that the
      sorted prefix `a[..i]` becomes the sorted prefix `a[..i + 1]`. */
  method InsertLast(a: array<Candidate>, i: nat)
    requires i < a.Length
    requires forall k, l :: 0 <= k < l < i ==> a[k].distance <= a[l].distance
    modifies a
    ensures forall k, l :: 0 <= k < l <= i ==> a[k].distance <= a[l].distance
    ensures multiset(a[..]) == multiset(old(a[..]))
    ensures a[i + 1..] == old(a[i + 1..])
  {
    var j := i;
    while j > 0 && a[j - 1].distance > a[j].distance
      invariant 0 <= j <= i
      invariant forall k, l :: 0 <= k < l <= i && l != j ==> a[k].distance <= a[l].distance
      invariant forall l :: j < l <= i ==> a[j].distance < a[l].distance
      invariant multiset(a[..]) == multiset(old(a[..]))
      invariant a[i + 1..] == old(a[i + 1..])
    {
      Swap(a, j - 1, j);
      j := j - 1;
    }
  }

  /** `std::sort` by distance: sorts the array in place (equal distances in any order). */
  method SortByDistance(a: array<Candidate>)
    modifies a
    ensures SortedByDistance(a[..])
    ensures multiset(a[..]) == multiset(old(a[..]))
  {
    var i := 0;
    while i < a.Length
      invariant 0 <= i <= a.Length
      invariant forall k, l :: 0 <= k < l < i ==> a[k].distance <= a[l].distance
      invariant multiset(a[..]) == multiset(old(a[..]))
    {
      InsertLast(a, i);
      i := i + 1;
    }
  }

  /** The distance loop of `GetNearbyHotels`. */
  method CollectCandidates(hotels: seq<HotelLocation>, lat: real, lon: real, distance: Distance)
    returns (distances: seq<Candidate>)
    ensures distances == Candidates(hotels, lat, lon, distance)
  {
    distances := [];
    var k := 0;
    while k < |hotels|
      invariant 0 <= k <= |hotels|
      invariant distances == Candidates(hotels[..k], lat, lon, distance)
    {
      var hotel := hotels[k];
      var d := distance(lat, lon, hotel.lat, hotel.lon);
      if d <= MaxSearchRadius {
        distances := distances + [Candidate(hotel.id, d)];
      }
      assert hotels[..k + 1][..k] == hotels[..k];
      k := k + 1;
    }
    assert hotels[..k] == hotels;
  }

  /** The ids of the first `n` candidates. */
  method FirstIds(ranked: seq<Candidate>, n: nat) returns (ids: seq<string>)
    requires n <= |ranked|
    ensures |ids| == n
    ensures forall j :: 0 <= j < n ==> ids[j] == ranked[j].id
  {
    ids := [];
    var i := 0;
    while i < n
      invariant 0 <= i <= n
      invariant |ids| == i
      invariant forall j :: 0 <= j < i ==> ids[j] == ranked[j].id
    {
      ids := ids + [ranked[i].id];
      i := i + 1;
    }
  }

  /** The first position holding `id`, or `|hotels|` when there is none (`std::find_if`). */
  function FindFirst(hotels: seq<HotelLocation>, id: string): (k: nat)
    ensures k <= |hotels|
    ensures k < |hotels| ==> hotels[k].id == id
    ensures forall j :: 0 <= j < k ==> hotels[j].id != id
  {
    if hotels == [] then 0
    else if hotels[0].id == id then 0
    else 1 + FindFirst(hotels[1..], id)
  }

  class GeoService {
    const hotels: seq<HotelLocation>

    /** `InitializeSampleData`: six listed hotels, then hotels "7" to "80" on a line. */
    constructor ()
      ensures |hotels| == 80
      ensures hotels[..6] == [
        HotelLocation("1", 37.7867, -122.4112), HotelLocation("2", 37.7854, -122.4005),
        HotelLocation("3", 37.7854, -122.4071), HotelLocation("4", 37.7936, -122.3930),
        HotelLocation("5", 37.7831, -122.4181), HotelLocation("6", 37.7863, -122.4015)]
      ensures forall k :: 6 <= k < 80 ==> hotels[k] == GeneratedLocation(k + 1)
    {
      var h := [
        HotelLocation("1", 37.7867, -122.4112), HotelLocation("2", 37.7854, -122.4005),
        HotelLocation("3", 37.7854, -122.4071), HotelLocation("4", 37.7936, -122.3930),
        HotelLocation("5", 37.7831, -122.4181), HotelLocation("6", 37.7863, -122.4015)];
      var i := 7;
      while i <= 80
        invariant 7 <= i <= 81 && |h| == i - 1
        invariant h[..6] == [
          HotelLocation("1", 37.7867, -122.4112), HotelLocation("2", 37.7854, -122.4005),
          HotelLocation("3", 37.7854, -122.4071), HotelLocation("4", 37.7936, -122.3930),
          HotelLocation("5", 37.7831, -122.4181), HotelLocation("6", 37.7863, -122.4015)]
        invariant forall k :: 6 <= k < i - 1 ==> h[k] == GeneratedLocation(k + 1)
      {
        var lat := 37.7835 + i as real / 500.0 * 3.0;
        var lon := -122.41 + i as real / 500.0 * 4.0;
        h := h + [HotelLocation(NatToString(i), lat, lon)];
        i := i + 1;
      }
      hotels := h;
    }

    /** `GetNearbyHotels`: the in-radius hotels sorted by distance, at most five of them.
        `ranked` is the sorted `distances` vector the ids are taken from. */
    method GetNearbyHotels(req: NearbyRequest, distance: Distance)
      returns (resp: NearbyResponse, ranked: seq<Candidate>)
      ensures multiset(ranked) == multiset(Candidates(hotels, req.lat, req.lon, distance))
      ensures SortedByDistance(ranked)
      ensures |resp.hotelIds| == Min(MaxSearchResults, |ranked|)
      ensures forall i :: 0 <= i < |resp.hotelIds| ==> resp.hotelIds[i] == ranked[i].id
      ensures forall i :: 0 <= i < |resp.hotelIds| ==> ranked[i].distance <= MaxSearchRadius
      ensures forall i, j :: 0 <= i < |resp.hotelIds| <= j < |ranked| ==> ranked[i].distance <= ranked[j].distance
    {
      var distances := CollectCandidates(hotels, req.lat, req.lon, distance);
      CandidatesMembers(hotels, req.lat, req.lon, distance);
      var a := new Candidate[|distances|](i requires 0 <= i < |distances| => distances[i]);
      assert a[..] == distances;
      SortByDistance(a);
      ranked := a[..];
      forall c | c in ranked
        ensures c.distance <= MaxSearchRadius
      {
        assert c in multiset(ranked);
      }
      var ids := FirstIds(a[..], Min(MaxSearchResults, a.Length));
      resp := NearbyResponse(ids);
    }

    /** `GetPoint`: the first listed hotel with the id, or an empty point. */
    function GetPoint(hotelId: string): (p: Point)
      ensures (forall k :: 0 <= k < |hotels| ==> hotels[k].id != hotelId) ==> p == Point("", 0.0, 0.0)
      ensures forall k :: (0 <= k < |hotels| && hotels[k].id == hotelId &&
        (forall j :: 0 <= j < k ==> hotels[j].id != hotelId)) ==> p == Point(hotelId, hotels[k].lat, hotels[k].lon)
    {
      var k := FindFirst(hotels, hotelId);
      if k < |hotels| then Point(hotels[k].id, hotels[k].lat, hotels[k].lon) else Point("", 0.0, 0.0)
    }
  }

  /** The location of generated hotel `i`. */
  function GeneratedLocation(i: nat): HotelLocation
  {
    HotelLocation(NatToString(i), 37.7835 + i as real / 500.0 * 3.0, -122.41 + i as real / 500.0 * 4.0)
  }
}
