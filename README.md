# Hotel reservation microservices — a Dafny model

This models the in-memory logic of a hotel-booking mesh made of seven services. Each
service except search keeps its own table and answers requests.

- **Reservation** keeps a ledger from hotel id to a room capacity and a list of
  reservations. It tests date-range availability and books after a credential check
  with the user service.
- **User** stores user names and passwords. It registers a name only when the name is
  new, and checks credentials by exact match.
- **Search** chains three calls: geo, then rate, then profile. Any failed call ends the
  search with an empty answer, and no later call is made.
- **Recommendation** picks every hotel at the extreme of one criterion: least distance
  ("dis"), highest rate ("rate") or least price ("price"). Ties are kept. It then fetches
  the chosen hotels' profiles.
- **Profile**, **Rate** and **Geo** are lookups over read-only tables:
  - profiles by id;
  - rate plans per room type;
  - the five nearest hotels within 10 km, and the location of one hotel.

Modules follow the services: `Reservations`, `Users`, `Search`, `Recommendations`,
`Profiles`, `Rates` and `Geo`. Three shared modules support them:

- `Messages` holds the message records and the outcome of a call to a peer.
- `Text` holds lexicographic order on strings, decimal rendering of numbers and string
  repetition.
- `Wrappers` holds `Option`.

Modelling choices:
- **Stateful services.** The two services whose tables change are classes with `var`
  fields and `modifies` clauses (reservation, user). The read-only tables are `const`
  fields set by the constructor.
- **Loops.** Loops in the source are methods with loop invariants, proved against
  specification functions (`BookedRooms`, `FoundProfiles`, `RatePlans`, `Candidates`,
  `Minimal`). The loops that copy a repeated field one element at a time (the
  `add_hotel_ids` and `add_hotels` loops) share one method, `Messages.CopyAll`.
- **Calls to peers.** A call to another service is a function parameter from the request
  to an `HttpResult`. The result is either no result, or a status code with a body that
  parsed or failed to parse. Callers that chain calls also return the list of requests
  they made, so "no further call is made" can be stated.
- **Distance.** The haversine distance is a function parameter.
- **Numbers.** Coordinates, rates and prices are Dafny `real`s. These are exact rationals,
  so the source's `1e-10` tolerance comparisons become equality.
- **Date order.** Dates are compared with `Text.LexLe`, the lexicographic order that
  `std::string`'s `<=` uses. Dafny's own `<` on strings means "proper prefix".
- **Iteration order.** Passes over an `unordered_map` visit the keys in an unspecified
  order. This is modelled by picking any key not yet visited (`:|`), so every proof holds
  for every order.
- **Sorting.** `std::sort` is modelled by an in-place insertion sort on an array.
  Callers rely only on its contract (sorted, and a permutation of its input), so ties may
  come in any order, as `std::sort` allows.

Three facts about the code that the model keeps:
- **Failed rate call.** A failed rate call ends the search with an empty response
  (search_service/main.cpp:48-51), even though the rates are never used afterwards
  (`Search.Search`).
- **One client per peer.** The services hold one `httplib::Client` per peer, with no pool,
  deadline or retry.
- **Recommendation calls.** A recommendation calls only the profile service.

## Model

| member | source | states |
|---|---|---|
| Text.LexLeReflexive | reservation_service/main.cpp:62-63 | every date string is `<=` itself under the string order |
| Text.LexLeTransitive | reservation_service/main.cpp:62-63 | the string order used for dates is transitive |
| Text.LexLeTotal | reservation_service/main.cpp:62-63 | any two strings are comparable under it |
| Text.LexLeAntisymmetric | reservation_service/main.cpp:62-63 | two strings each `<=` the other are equal |
| Text.NatToString | reservation_service/main.cpp:29 | `std::to_string` of a non-negative number: at least one digit, a single digit exactly below 10, last digit the number modulo 10 |
| Text.NatToStringInjective | user_service/main.cpp:22-23 | different numbers render differently, so seeded ids and user names never collide |
| Text.NatToStringFresh | reservation_service/main.cpp:34-35 | the id of number `i` differs from every earlier number's id |
| Text.NumberedInsert | rate_service/main.cpp:19-41 | inserting entry `i` after entries `lo..i-1` gives exactly the keys `lo..i` with their values |
| Text.Repeat | user_service/main.cpp:26-29 | appending `s` to the empty string `n` times gives length `n * |s|` |
| Messages.Payload | search_service/main.cpp:30-31 | a call's payload is present exactly when there was a result with status 200 whose body parsed |
| Reservations.OccupancyWithinBooked | reservation_service/main.cpp:60-66 | with non-negative room counts, the rooms held on any date in the requested range are at most the overlapping rooms the availability test adds up |
| Reservations.BookingKeepsCapacity | reservation_service/main.cpp:97-113 | appending a reservation that passes the availability test keeps every date's occupancy within the hotel's capacity |
| Reservations.BookingCountsAgainstSameDates | reservation_service/main.cpp:61-66 | once booked, a reservation counts in full against a request for the same dates |
| Reservations.SharedBoundaryOverlaps | reservation_service/main.cpp:62-63 | the overlap test is closed: for any well-ordered reservation and request, a stay ending on the day the other starts (either way round) overlaps it |
| Reservations.GeneratedRooms | reservation_service/main.cpp:36-41 | hotel `i` from 7 on gets 300, 250 or 200 rooms by `i % 3`, and no reservations |
| Reservations.SeedCapacities | reservation_service/main.cpp:27-43 | ids "1" to "80", all empty; capacity 200 for 1–6, and 300, 250 or 200 for 7–80 by remainder modulo 3 |
| Reservations.InitializeSampleData | reservation_service/main.cpp:26-53 | the seeded capacities, plus Alice's one-room 2015-04-09 to 2015-04-10 reservation at hotel "4" |
| Reservations.SeedNoOverbooking | reservation_service/main.cpp:45-52 | the seeded ledger satisfies the no-overbooking invariant |
| Reservations.ReservationService.constructor | reservation_service/main.cpp:22-24 | the service starts from the seeded ledger, which does not overbook |
| Reservations.ReservationService.CheckAvailability | reservation_service/main.cpp:55-69 | false for an unknown hotel, otherwise true exactly when the overlapping rooms plus the requested rooms fit the capacity |
| Reservations.ReservationService.MakeReservation | reservation_service/main.cpp:71-117 | four outcomes: "Failed to verify user credentials", "Invalid user credentials" and "No availability for the selected dates" leave the ledger as it was; "Reservation confirmed" appends exactly one reservation copied from the request to that hotel only; with non-negative room counts the no-overbooking invariant is preserved |
| Users.CornellNameInjective | user_service/main.cpp:21-23 | distinct seed numbers give distinct user names |
| Users.SeedAcceptsCornell1 | user_service/main.cpp:21-31 | the seeded credentials of number 1 are `Cornell_1` / `1111111111` |
| Users.InitializeSampleData | user_service/main.cpp:19-33 | exactly `Cornell_0` … `Cornell_500`, each with its decimal suffix repeated ten times as password |
| Users.UserService.constructor | user_service/main.cpp:15-17 | the service starts from that seed |
| Users.UserService.RegisterUser | user_service/main.cpp:35-47 | a known name: "User already exists" and nothing changes; a new name: exactly that entry added and "User registered successfully"; afterwards the new credentials are accepted, and every credential accepted before still is |
| Users.UserService.CheckUser | user_service/main.cpp:49-54 | true exactly when the name is stored with exactly that password; the store is not changed |
| Messages.CopyAll | search_service/main.cpp:37-39 | a repeated-field builder loop copies every element in order; search and recommendation use it for their request ids and response profiles |
| Search.Search | search_service/main.cpp:19-77 | geo is always called with the request's point; a geo failure gives an empty answer and no further call; otherwise rate is asked for the geo ids and dates, and a rate failure gives an empty answer and no profile call; otherwise profile is asked for the same ids and the locale, and the answer is the profile reply's list, or empty when that call fails |
| Profiles.FoundProfilesAppend | profile_service/main.cpp:146-151 | the lookup of a concatenation of id lists is the concatenation of the lookups, so the output follows request order |
| Profiles.FoundProfilesSingle | profile_service/main.cpp:147-150 | one id yields its stored profile, or nothing when it is unknown |
| Profiles.FoundProfilesDuplicate | profile_service/main.cpp:146-151 | a duplicated id yields a duplicated profile |
| Profiles.FoundProfilesLength | profile_service/main.cpp:146-151 | never more profiles than ids, and exactly as many when every id is known |
| Profiles.FoundProfilesMembers | profile_service/main.cpp:146-151 | each returned profile is the stored entry of a requested id; in a table keyed by id its own id is that requested id; every known requested id is returned |
| Profiles.ProfileService.constructor | profile_service/main.cpp:122-140 | each seed profile is filed under its own id, and only seed ids are keys |
| Profiles.ProfileService.GetProfiles | profile_service/main.cpp:143-154 | the answer is the lookup of the requested ids in request order, independent of the locale; the table is read-only |
| Rates.PlansOfAt | rate_service/main.cpp:51-58 | plan `k` of a hotel carries the requested id and dates, room type `k` and that room type's code, one plan per room type |
| Rates.RatePlansAppend | rate_service/main.cpp:48-60 | plans follow request order: the plans of a concatenation are the concatenation of the plans |
| Rates.RatePlansSingle | rate_service/main.cpp:49-59 | one id yields its hotel's plans, or none when it is unknown |
| Rates.RatePlansCount | rate_service/main.cpp:48-59 | the number of plans is the sum of the room-type counts of the known requested ids |
| Rates.RatePlansFields | rate_service/main.cpp:53-57 | every plan has the requested dates, a requested and known hotel id, one of its stored room types and that type's code |
| Rates.InitializeSampleRates | rate_service/main.cpp:17-43 | exactly the ids "1" to "10", each with a standard room then a deluxe room, with totals of 1.1 times the bookable rate and a further 1.2 times inclusive |
| Rates.RateService.constructor | rate_service/main.cpp:13-15 | the service starts from that seed: every stored id has two room types, "STD" then "DLX" |
| Rates.RateService.GetRates | rate_service/main.cpp:45-63 | the answer is the plans of the requested ids in request order, then stored room-type order |
| Geo.CandidatesMembers | geo_service/main.cpp:68-74 | a candidate is exactly a listed hotel within 10 km, paired with its distance |
| Geo.Swap | geo_service/main.cpp:77-78 | the exchange step of the in-place sort is a permutation |
| Geo.InsertLast | geo_service/main.cpp:77-78 | one insertion step grows the sorted prefix by one, permutes the array and leaves the elements after it untouched |
| Geo.SortByDistance | geo_service/main.cpp:77-78 | the array ends up in non-decreasing distance order and is a permutation of what it held |
| Geo.CollectCandidates | geo_service/main.cpp:68-74 | the distance loop builds the in-radius candidates in list order |
| Geo.FirstIds | geo_service/main.cpp:81-83 | the ids of the first `n` ranked candidates, in order |
| Geo.FindFirst | geo_service/main.cpp:90-91 | the first position holding the id, or the list's length when no hotel has it |
| Geo.GeoService.constructor | geo_service/main.cpp:28-44 | 80 hotels: the six listed ones in order, then hotels 7 to 80 on the generated line |
| Geo.GeoService.GetNearbyHotels | geo_service/main.cpp:63-86 | the ids are the first min(5, n) of a distance-sorted permutation of the n in-radius candidates: at most five, each within 10 km, in non-decreasing distance, none farther than an omitted candidate, and every candidate when there are at most five |
| Geo.GeoService.GetPoint | geo_service/main.cpp:88-99 | the point of the first listed hotel with the id, or the empty point when none has it |
| Recommendations.MinimalNonEmpty | recommendation_service/main.cpp:113-121 | a non-empty table has an id whose score is the extreme: the extreme is attained |
| Recommendations.RecommendedByDistance | recommendation_service/main.cpp:92-109 | "dis" selects exactly the hotels at the least distance from the query point |
| Recommendations.RecommendedByRate | recommendation_service/main.cpp:111-122 | "rate" selects exactly the hotels at the highest rate |
| Recommendations.RecommendedByPrice | recommendation_service/main.cpp:124-135 | "price" selects exactly the hotels at the least price |
| Recommendations.RecommendationsExist | recommendation_service/main.cpp:92-136 | for a non-empty table and a known criterion at least one hotel is selected |
| Recommendations.ComputeDistances | recommendation_service/main.cpp:98-102 | the first "dis" pass records every hotel's distance; the source tracks the minimum in this same pass, while the model finds it afterwards with `LeastScore` over the distance map, which gives the same minimum (so "dis" is three passes in the model, two in the source) |
| Recommendations.LeastScore | recommendation_service/main.cpp:113-116 | the running extreme ends as a score some id attains and none undercuts; none for an empty table |
| Recommendations.SelectMinimal | recommendation_service/main.cpp:111-122 | the extreme pass and the collecting pass together collect exactly the ids at the extreme, each once, in whatever order the table is visited |
| Recommendations.GenerateHotel | recommendation_service/main.cpp:41-67 | hotel `i` from 7 on: its point on the generated line, rate 135 and price 179 by default, and for multiples of 3 the pair set by the remainder modulo 5 |
| Recommendations.ListedHotels | recommendation_service/main.cpp:33-38 | the six listed hotels with their rates and prices |
| Recommendations.InitializeSampleData | recommendation_service/main.cpp:31-69 | exactly ids "1" to "80", id `i` holding its seeded hotel |
| Recommendations.SeedRates | recommendation_service/main.cpp:46-65 | no seeded rate exceeds 232, and exactly hotels 9, 24, 39, 54 and 69 have it |
| Recommendations.SeedPrices | recommendation_service/main.cpp:33-65 | no seeded price is below 120, and only hotel 2 has it |
| Recommendations.SeedRecommendsByRate | recommendation_service/main.cpp:111-122 | on the seed, "rate" selects exactly "9", "24", "39", "54" and "69" |
| Recommendations.SeedRecommendsByPrice | recommendation_service/main.cpp:124-135 | on the seed, "price" selects "2" alone |
| Recommendations.RecommendationService.constructor | recommendation_service/main.cpp:27-29 | the service starts from the seeded table |
| Recommendations.RecommendationService.GetRecommendations | recommendation_service/main.cpp:88-161 | one profile call exactly when some hotel is selected, naming every selected hotel once and the request's locale; an unknown criterion selects nothing and makes no call; the answer is the profile reply's list, or empty when nothing was selected or the call failed |

## Left out

- **Haversine distance.** `calculateDistance` (geo_service/main.cpp:46-61,
  recommendation_service/main.cpp:71-86) is floating-point trigonometry. It is a function
  parameter of the operations that use it.
- **Floating point.** Coordinates, rates, prices and room rates are exact rationals, not
  IEEE doubles. The `1e-10` tolerances become equality: two distinct doubles closer than
  `1e-10` would both be kept by the source, but only equal values are kept here.
- **The "numeric maximum" start.** The recommendation passes start from
  `std::numeric_limits<double>::max()` (or its negation). The model starts from "no value
  yet". The two agree whenever some hotel has a finite score.
- **Random seed rates.**
  - Rates.RateService.constructor: the bookable rates are parameters, one pair per hotel.
    The model does not fix them to `100 + rand() % 50` and `200 + rand() % 100`, because
    `rand()` is outside the model.
  - Rates.InitializeSampleRates: the same.
- **Profile seed data.** The six literal profiles and the generated ones
  (profile_service/main.cpp:18-140) are not reproduced. `Profiles.ProfileService` takes
  its seed as a list and files each profile under its own id, as the source does.
- **Geo reads of its own table.** The geo seed puts hotel 3 at latitude 37.7854. The
  profile and recommendation seeds put it at 37.7834. Each model keeps its own service's
  value, and nothing relates them.
- **HTTP and routing.** `httplib` clients, servers, thread pools and every `main`
  function are left out. Each reply from a peer is an `HttpResult` input. The `400` reply
  to a request that does not parse is outside the model.
- **Serialisation.** Protobuf and ser1de encoding (serialization_utils.h) is left out. A
  body that fails to parse is the `None` body of an `HttpResult`.
- **Mutexes.** The locks in the reservation and user services are left out. Each guarded
  operation is one atomic step, and no claim is made about concurrent callers.
- **Integer width.** Room counts and the running `int booked_rooms` total are
  mathematical integers, so the 32-bit overflow of `booked_rooms` is not modelled.
- **Connection pools, deadlines and retries.** The code has none of them, so the model
  has none.
- **Other programs.** frontend_service/main.cpp (JSON field mapping and forwarding),
  service1/service2 (a messaging demo) and locust/locustfile.py (a load generator) are not
  part of this model.
