/**
  The recommendation service: a read-only table of hotels, and the hotels that are best
  by distance, by rate or by price, whose profiles it then fetches from the profile
  service. The table is an unordered map: each pass over it visits the ids in an
  unspecified order, modelled by picking any id not yet visited.
*/
module Recommendations {
  import opened Wrappers
  import opened Text
  import opened Messages

  datatype Hotel = Hotel(id: string, lat: real, lon: real, rate: real, price: real)

  type HotelTable = map<string, Hotel>

  /** `calculateDistance(lat1, lon1, lat2, lon2)`, in kilometres. */
  type Distance = (real, real, real, real) -> real

  /** The ids whose score no other id undercuts. */
  function Minimal(scores: map<string, real>): set<string>
  {
    set k | k in scores.Keys && forall j :: j in scores ==> scores[k] <= scores[j]
  }

  /** A non-empty score table has at least one minimal id. */
  lemma {:induction false} MinimalNonEmpty(scores: map<string, real>)
    requires scores != map[]
    ensures Minimal(scores) != {}
    decreases |scores.Keys|
  {
    var k :| k in scores;
    var rest := scores - {k};
    if rest == map[] {
      assert rest.Keys == {} && scores.Keys == {k};
      assert k in Minimal(scores);
    } else {
      assert |rest.Keys| < |scores.Keys| by {
        assert rest.Keys == scores.Keys - {k};
      }
      MinimalNonEmpty(rest);
      var m :| m in Minimal(rest);
      if scores[k] <= scores[m] {
        forall j | j in scores
          ensures scores[k] <= scores[j]
        {
          if j != k {
            assert j in rest;
          }
        }
        assert k in Minimal(scores);
      } else {
        forall j | j in scores
          ensures scores[m] <= scores[j]
        {
          if j != k {
            assert j in rest;
          }
        }
        assert m in Minimal(scores);
      }
    }
  }

  /** The distance of every hotel from (lat, lon). */
  function DistanceScores(hotels: HotelTable, lat: real, lon: real, distance: Distance): map<string, real>
  {
    map id | id in hotels :: distance(lat, lon, hotels[id].lat, hotels[id].lon)
  }

  /** The rate of every hotel, negated, so that the highest rate scores least. */
  function RateScores(hotels: HotelTable): map<string, real>
  {
    map id | id in hotels :: -hotels[id].rate
  }

  /** The price of every hotel. */
  function PriceScores(hotels: HotelTable): map<string, real>
  {
    map id | id in hotels :: hotels[id].price
  }

  /** Whether hotel `k` is recommended for `req`: nearest for "dis", highest rate for
      "rate", cheapest for "price"; nothing for any other requirement. */
  predicate Recommended(hotels: HotelTable, req: RecommendRequest, distance: Distance, k: string)
  {
    && k in hotels
    && if req.require == "dis" then
         forall j :: j in hotels ==>
           distance(req.lat, req.lon, hotels[k].lat, hotels[k].lon) <= distance(req.lat, req.lon, hotels[j].lat, hotels[j].lon)
       else if req.require == "rate" then
         forall j :: j in hotels ==> hotels[j].rate <= hotels[k].rate
       else if req.require == "price" then
         forall j :: j in hotels ==> hotels[k].price <= hotels[j].price
       else false
  }

  /** "dis" recommends exactly the ids of least distance. */
  lemma RecommendedByDistance(hotels: HotelTable, req: RecommendRequest, distance: Distance)
    requires req.require == "dis"
    ensures forall k :: k in Minimal(DistanceScores(hotels, req.lat, req.lon, distance)) <==> Recommended(hotels, req, distance, k)
  {
    var s := DistanceScores(hotels, req.lat, req.lon, distance);
    forall k
      ensures k in Minimal(s) <==> Recommended(hotels, req, distance, k)
    {
      if k in hotels {
        assert forall j :: j in s <==> j in hotels;
        assert forall j :: j in hotels ==> s[j] == distance(req.lat, req.lon, hotels[j].lat, hotels[j].lon);
        assert (forall j :: j in s ==> s[k] <= s[j]) <==> (forall j :: j in hotels ==> distance(req.lat, req.lon, hotels[k].lat, hotels[k].lon) <= distance(req.lat, req.lon, hotels[j].lat, hotels[j].lon));
      }
    }
  }

  /** "rate" recommends exactly the ids of least negated rate. */
  lemma RecommendedByRate(hotels: HotelTable, req: RecommendRequest, distance: Distance)
    requires req.require == "rate"
    ensures forall k :: k in Minimal(RateScores(hotels)) <==> Recommended(hotels, req, distance, k)
  {
    var s := RateScores(hotels);
    forall k
      ensures k in Minimal(s) <==> Recommended(hotels, req, distance, k)
    {
      if k in hotels {
        assert forall j :: j in s <==> j in hotels;
        assert forall j :: j in hotels ==> s[j] == -hotels[j].rate;
        assert (forall j :: j in s ==> s[k] <= s[j]) <==> (forall j :: j in hotels ==> hotels[j].rate <= hotels[k].rate);
      }
    }
  }

  /** "price" recommends exactly the ids of least price. */
  lemma RecommendedByPrice(hotels: HotelTable, req: RecommendRequest, distance: Distance)
    requires req.require == "price"
    ensures forall k :: k in Minimal(PriceScores(hotels)) <==> Recommended(hotels, req, distance, k)
  {
    var s := PriceScores(hotels);
    forall k
      ensures k in Minimal(s) <==> Recommended(hotels, req, distance, k)
    {
      if k in hotels {
        assert forall j :: j in s <==> j in hotels;
        assert forall j :: j in hotels ==> s[j] == hotels[j].price;
        assert (forall j :: j in s ==> s[k] <= s[j]) <==> (forall j :: j in hotels ==> hotels[k].price <= hotels[j].price);
      }
    }
  }

  /** Every known requirement recommends at least one hotel of a non-empty table. */
  lemma RecommendationsExist(hotels: HotelTable, req: RecommendRequest, distance: Distance)
    requires hotels != map[]
    requires req.require == "dis" || req.require == "rate" || req.require == "price"
    ensures exists k :: Recommended(hotels, req, distance, k)
  {
    var scores :=
      if req.require == "dis" then DistanceScores(hotels, req.lat, req.lon, distance)
      else if req.require == "rate" then RateScores(hotels)
      else PriceScores(hotels);
    assert scores.Keys == hotels.Keys;
    var k :| k in hotels;
    assert k in scores;
    MinimalNonEmpty(scores);
    var m :| m in Minimal(scores);
    assert Recommended(hotels, req, distance, m);
  }

  /** `distances`: the first pass of the "dis" branch, one distance per hotel. */
  method ComputeDistances(hotels: HotelTable, lat: real, lon: real, distance: Distance)
    returns (distances: map<string, real>)
    ensures distances == DistanceScores(hotels, lat, lon, distance)
  {
    distances := map[];
    var rest := hotels.Keys;
    while rest != {}
      invariant rest <= hotels.Keys
      invariant distances == map id | id in hotels && id !in rest :: distance(lat, lon, hotels[id].lat, hotels[id].lon)
      decreases |rest|
    {
      var id :| id in rest;
      var hotel := hotels[id];
      distances := distances[id := distance(lat, lon, hotel.lat, hotel.lon)];
      rest := rest - {id};
    }
  }

  /** The least score, found by a pass in any order; `None` for an empty table. */
  method LeastScore(scores: map<string, real>) returns (best: Option<real>)
    ensures best.None? <==> scores == map[]
    ensures best.Some? ==> exists k :: k in scores && scores[k] == best.value
    ensures best.Some? ==> forall k :: k in scores ==> best.value <= scores[k]
  {
    best := None;
    var rest := scores.Keys;
    while rest != {}
      invariant rest <= scores.Keys
      invariant best.None? <==> rest == scores.Keys
      invariant best.Some? ==> exists k :: k in scores && k !in rest && scores[k] == best.value
      invariant best.Some? ==> forall k :: k in scores && k !in rest ==> best.value <= scores[k]
      decreases |rest|
    {
      var k :| k in rest;
      if best.None? || scores[k] < best.value {
        best := Some(scores[k]);
      }
      rest := rest - {k};
    }
    if best.None? {
      assert scores.Keys == {};
    }
  }

  /** The two passes of one branch: the extreme score, then, in any order, every id
      that attains it, each once. */
  method SelectMinimal(scores: map<string, real>) returns (ids: seq<string>)
    ensures forall k :: k in ids <==> k in Minimal(scores)
    ensures forall i, j :: 0 <= i < j < |ids| ==> ids[i] != ids[j]
  {
    var best := LeastScore(scores);
    ids := [];
    var rest := scores.Keys;
    while rest != {}
      invariant rest <= scores.Keys
      invariant forall k :: k in ids <==> k in scores && k !in rest && k in Minimal(scores)
      invariant forall i, j :: 0 <= i < j < |ids| ==> ids[i] != ids[j]
      decreases |rest|
    {
      var k :| k in rest;
      if best.Some? && scores[k] == best.value {
        ids := ids + [k];
      }
      rest := rest - {k};
    }
  }

  /** The rate of seeded hotel `i` from 7 on: 135 by default; for multiples of 3,
      set by the remainder modulo 5. */
  function GeneratedRate(i: nat): real
  {
    if i % 3 == 0 then
      if i % 5 == 0 then 109.00
      else if i % 5 == 1 then 120.00
      else if i % 5 == 2 then 124.00
      else if i % 5 == 3 then 132.00
      else 232.00
    else 135.00
  }

  /** The price (`rate_inc`) of seeded hotel `i` from 7 on. */
  function GeneratedPrice(i: nat): real
  {
    if i % 3 == 0 then
      if i % 5 == 0 then 123.17
      else if i % 5 == 1 then 140.00
      else if i % 5 == 2 then 144.00
      else if i % 5 == 3 then 158.00
      else 258.00
    else 179.00
  }

  /** Seeded hotel `i`, for 1 <= i <= 80. */
  function SeedHotel(i: nat): Hotel
  {
    if i == 1 then Hotel("1", 37.7867, -122.4112, 109.00, 150.00)
    else if i == 2 then Hotel("2", 37.7854, -122.4005, 139.00, 120.00)
    else if i == 3 then Hotel("3", 37.7834, -122.4071, 109.00, 190.00)
    else if i == 4 then Hotel("4", 37.7936, -122.3930, 129.00, 160.00)
    else if i == 5 then Hotel("5", 37.7831, -122.4181, 119.00, 140.00)
    else if i == 6 then Hotel("6", 37.7863, -122.4015, 149.00, 200.00)
    else Hotel(NatToString(i), 37.7835 + i as real / 500.0 * 3.0, -122.41 + i as real / 500.0 * 4.0,
               GeneratedRate(i), GeneratedPrice(i))
  }

  /** The seeded table: ids "1" to "80", id `i` holding `SeedHotel(i)`. */
  ghost predicate IsSeed(m: HotelTable)
  {
    && m.Keys == (set i | 1 <= i <= 80 :: NatToString(i))
    && forall i :: 1 <= i <= 80 ==> m[NatToString(i)] == SeedHotel(i)
  }

  /** One generated hotel, as the seeding loop builds it. */
  method GenerateHotel(i: nat) returns (h: Hotel)
    requires 7 <= i
    ensures h == SeedHotel(i)
  {
    var hotelId := NatToString(i);
    var lat := 37.7835 + i as real / 500.0 * 3.0;
    var lon := -122.41 + i as real / 500.0 * 4.0;
    var rate := 135.00;
    var rateInc := 179.00;
    if i % 3 == 0 {
      if i % 5 == 0 {
        rate, rateInc := 109.00, 123.17;
      } else if i % 5 == 1 {
        rate, rateInc := 120.00, 140.00;
      } else if i % 5 == 2 {
        rate, rateInc := 124.00, 144.00;
      } else if i % 5 == 3 {
        rate, rateInc := 132.00, 158.00;
      } else if i % 5 == 4 {
        rate, rateInc := 232.00, 258.00;
      }
    }
    h := Hotel(hotelId, lat, lon, rate, rateInc);
  }

  /** The six listed hotels. */
  method ListedHotels() returns (m: HotelTable)
    ensures m.Keys == (set j | 1 <= j < 7 :: NatToString(j))
    ensures forall j :: 1 <= j < 7 ==> m[NatToString(j)] == SeedHotel(j)
  {
    m := map[
      "1" := Hotel("1", 37.7867, -122.4112, 109.00, 150.00),
      "2" := Hotel("2", 37.7854, -122.4005, 139.00, 120.00),
      "3" := Hotel("3", 37.7834, -122.4071, 109.00, 190.00),
      "4" := Hotel("4", 37.7936, -122.3930, 129.00, 160.00),
      "5" := Hotel("5", 37.7831, -122.4181, 119.00, 140.00),
      "6" := Hotel("6", 37.7863, -122.4015, 149.00, 200.00)];
    assert NatToString(1) == "1" && NatToString(2) == "2" && NatToString(3) == "3";
    assert NatToString(4) == "4" && NatToString(5) == "5" && NatToString(6) == "6";
    forall x | x in (set j | 1 <= j < 7 :: NatToString(j))
      ensures x in m
    {
      var j :| 1 <= j < 7 && x == NatToString(j);
      assert j == 1 || j == 2 || j == 3 || j == 4 || j == 5 || j == 6;
    }
    forall x | x in m
      ensures x in (set j | 1 <= j < 7 :: NatToString(j))
    {
      if x == "1" {
        InNames(1, 7, 1);
      } else if x == "2" {
        InNames(1, 7, 2);
      } else if x == "3" {
        InNames(1, 7, 3);
      } else if x == "4" {
        InNames(1, 7, 4);
      } else if x == "5" {
        InNames(1, 7, 5);
      } else {
        InNames(1, 7, 6);
      }
    }
    forall j | 1 <= j < 7
      ensures m[NatToString(j)] == SeedHotel(j)
    {
      assert j == 1 || j == 2 || j == 3 || j == 4 || j == 5 || j == 6;
    }
  }

  /** `InitializeSampleData`. */
  method InitializeSampleData() returns (m: HotelTable)
    ensures IsSeed(m)
  {
    m := ListedHotels();
    var i := 7;
    while i <= 80
      invariant 7 <= i <= 81
      invariant m.Keys == (set j | 1 <= j < i :: NatToString(j))
      invariant forall j :: 1 <= j < i ==> m[NatToString(j)] == SeedHotel(j)
    {
      var hotel := GenerateHotel(i);
      NumberedInsert(m, SeedHotel, 1, i);
      m := m[NatToString(i) := hotel];
      i := i + 1;
    }
  }

  /** The highest seeded rate is 232, held exactly by hotels 9, 24, 39, 54 and 69. */
  lemma SeedRates(i: nat)
    requires 1 <= i <= 80
    ensures SeedHotel(i).rate <= 232.00
    ensures SeedHotel(i).rate == 232.00 <==> i in {9, 24, 39, 54, 69}
  {
  }

  /** The lowest seeded price is 120, held by hotel 2 alone. */
  lemma SeedPrices(i: nat)
    requires 1 <= i <= 80
    ensures 120.00 <= SeedHotel(i).price
    ensures SeedHotel(i).price == 120.00 <==> i == 2
  {
  }

  /** On the seeded table, "rate" recommends exactly hotels "9", "24", "39", "54", "69". */
  lemma SeedRecommendsByRate(m: HotelTable, req: RecommendRequest, distance: Distance)
    requires IsSeed(m)
    requires req.require == "rate"
    ensures forall k :: Recommended(m, req, distance, k) <==> k in {"9", "24", "39", "54", "69"}
  {
    assert NatToString(9) == "9" && NatToString(24) == "24" && NatToString(39) == "39";
    assert NatToString(54) == "54" && NatToString(69) == "69";
    forall k | Recommended(m, req, distance, k)
      ensures k in {"9", "24", "39", "54", "69"}
    {
      var i :| 1 <= i <= 80 && k == NatToString(i);
      SeedRates(i);
      SeedRates(9);
      assert m[NatToString(9)].rate <= m[k].rate;
    }
    forall k | k in {"9", "24", "39", "54", "69"}
      ensures Recommended(m, req, distance, k)
    {
      var i :| i in {9, 24, 39, 54, 69} && k == NatToString(i);
      SeedRates(i);
      forall j | j in m
        ensures m[j].rate <= m[k].rate
      {
        var n :| 1 <= n <= 80 && j == NatToString(n);
        SeedRates(n);
      }
    }
  }

  /** On the seeded table, "price" recommends hotel "2" alone. */
  lemma SeedRecommendsByPrice(m: HotelTable, req: RecommendRequest, distance: Distance)
    requires IsSeed(m)
    requires req.require == "price"
    ensures forall k :: Recommended(m, req, distance, k) <==> k == "2"
  {
    assert NatToString(2) == "2";
    forall k | Recommended(m, req, distance, k)
      ensures k == "2"
    {
      var i :| 1 <= i <= 80 && k == NatToString(i);
      SeedPrices(i);
      SeedPrices(2);
      assert m[k].price <= m[NatToString(2)].price;
    }
    forall j | j in m
      ensures m["2"].price <= m[j].price
    {
      var n :| 1 <= n <= 80 && j == NatToString(n);
      SeedPrices(n);
      SeedPrices(2);
    }
  }

  class RecommendationService {
    const hotels: HotelTable

    constructor ()
      ensures IsSeed(hotels)
    {
      var seed := InitializeSampleData();
      hotels := seed;
    }

    /** `GetRecommendations`. `profile` stands for the profile service; `calls` lists the
        profile requests made (none or one). */
    method GetRecommendations(
      req: RecommendRequest,
      distance: Distance,
      profile: GetProfilesRequest -> HttpResult<GetProfilesResponse>)
      returns (resp: RecommendResponse, calls: seq<GetProfilesRequest>)
      // The profile service is asked exactly when some hotel is recommended.
      ensures |calls| <= 1
      ensures |calls| == 1 <==> exists k :: Recommended(hotels, req, distance, k)
      // The request names every recommended hotel, each once, and nothing else.
      ensures |calls| == 1 ==> forall k :: k in calls[0].hotelIds <==> Recommended(hotels, req, distance, k)
      ensures |calls| == 1 ==>
        forall i, j :: 0 <= i < j < |calls[0].hotelIds| ==> calls[0].hotelIds[i] != calls[0].hotelIds[j]
      ensures |calls| == 1 ==> calls[0].locale == req.locale
      // The answer is the profile reply's profiles, in order; empty if nothing was
      // recommended or the call failed.
      ensures resp.hotels ==
        if |calls| == 1 && Payload(profile(calls[0])).Some? then Payload(profile(calls[0])).value.profiles else []
    {
      var ids: seq<string> := [];
      if req.require == "dis" {
        var distances := ComputeDistances(hotels, req.lat, req.lon, distance);
        ids := SelectMinimal(distances);
        RecommendedByDistance(hotels, req, distance);
      } else if req.require == "rate" {
        ids := SelectMinimal(RateScores(hotels));
        RecommendedByRate(hotels, req, distance);
      } else if req.require == "price" {
        ids := SelectMinimal(PriceScores(hotels));
        RecommendedByPrice(hotels, req, distance);
      }
      assert forall k :: k in ids <==> Recommended(hotels, req, distance, k);

      calls := [];
      resp := RecommendResponse([]);
      if ids != [] {
        assert Recommended(hotels, req, distance, ids[0]);
        var profileIds := CopyAll(ids);
        var profileReq := GetProfilesRequest(profileIds, req.locale);
        calls := [profileReq];
        var profileResult := profile(profileReq);
        if profileResult.Response? && profileResult.status == 200 && profileResult.body.Some? {
          var hotels := CopyAll(profileResult.body.value.profiles);
          resp := RecommendResponse(hotels);
        }
      } else {
        assert forall k :: !Recommended(hotels, req, distance, k);
      }
    }
  }
}
