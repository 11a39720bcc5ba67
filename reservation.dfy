/**
  The reservation service: a table from hotel id to the hotel's room capacity and its
  reservations, an availability test over closed date intervals, and booking gated by a
  credential check at the user service.
*/
module Reservations {
  import opened Text
  import opened Messages

  const FailedToVerify := "Failed to verify user credentials"
  const InvalidCredentials := "Invalid user credentials"
  const NoAvailability := "No availability for the selected dates"
  const Confirmed := "Reservation confirmed"

  /** One hotel's inventory record. */
  datatype HotelReservations = HotelReservations(reservations: seq<Reservation>, totalRooms: int)

  type Ledger = map<string, HotelReservations>

  /** An existing reservation competes with the requested range: the intervals are
      closed, so a shared boundary date counts. Dates compare as strings. */
  predicate Overlaps(r: Reservation, inDate: string, outDate: string)
  {
    LexLe(r.inDate, outDate) && LexLe(inDate, r.outDate)
  }

  /** The rooms of the reservations in `rs` that overlap the requested range. */
  function BookedRooms(rs: seq<Reservation>, inDate: string, outDate: string): int
  {
    if rs == [] then 0
    else BookedRooms(rs[..|rs| - 1], inDate, outDate)
         + (if Overlaps(rs[|rs| - 1], inDate, outDate) then rs[|rs| - 1].number else 0)
  }

  /** The availability rule: a known hotel, and the overlapping rooms plus the requested
      rooms fit in the hotel's capacity. */
  predicate Available(ledger: Ledger, hotelId: string, inDate: string, outDate: string, roomNumber: int)
  {
    hotelId in ledger &&
    BookedRooms(ledger[hotelId].reservations, inDate, outDate) + roomNumber <= ledger[hotelId].totalRooms
  }

  /** The reservation a request books, its fields copied from the request. */
  function NewReservation(req: ReservationRequest): Reservation
  {
    Reservation(req.hotelId, req.customerName, req.inDate, req.outDate, req.roomNumber)
  }

  /** The record after appending one reservation. */
  function Append(h: HotelReservations, r: Reservation): HotelReservations
  {
    h.(reservations := h.reservations + [r])
  }

  /** How the reply of the credential check is read. */
  datatype AuthResult = Unverified | Rejected | Accepted

  function Authenticate(reply: HttpResult<CheckUserResponse>): AuthResult
  {
    if reply.NoResult? || reply.status != 200 then Unverified
    else if reply.body.None? || !reply.body.value.found then Rejected
    else Accepted
  }

  // ---------------------------------------------------------------------------
  // Occupancy: the overbooking invariant, stated per calendar date.

  /** A reservation holds its rooms on every date from check-in to check-out inclusive. */
  predicate Covers(r: Reservation, date: string)
  {
    LexLe(r.inDate, date) && LexLe(date, r.outDate)
  }

  /** The rooms held on `date` by the reservations in `rs`. */
  function Occupancy(rs: seq<Reservation>, date: string): int
  {
    if rs == [] then 0
    else Occupancy(rs[..|rs| - 1], date)
         + (if Covers(rs[|rs| - 1], date) then rs[|rs| - 1].number else 0)
  }

  predicate NonNegative(rs: seq<Reservation>)
  {
    forall i :: 0 <= i < |rs| ==> rs[i].number >= 0
  }

  /** On no date does a hotel hold more rooms than it has. */
  ghost predicate WithinCapacity(h: HotelReservations)
  {
    forall date: string :: Occupancy(h.reservations, date) <= h.totalRooms
  }

  ghost predicate NoOverbooking(ledger: Ledger)
  {
    forall id :: id in ledger ==> NonNegative(ledger[id].reservations) && WithinCapacity(ledger[id])
  }

  /** Every reservation covering a date inside the requested range overlaps that range,
      so with non-negative room counts the rooms held on that date are at most the
      overlapping rooms the availability test adds up. */
  lemma {:induction false} OccupancyWithinBooked(rs: seq<Reservation>, inDate: string, outDate: string, date: string)
    requires NonNegative(rs)
    requires LexLe(inDate, date) && LexLe(date, outDate)
    ensures Occupancy(rs, date) <= BookedRooms(rs, inDate, outDate)
  {
    if rs != [] {
      var last := rs[|rs| - 1];
      assert NonNegative(rs[..|rs| - 1]);
      OccupancyWithinBooked(rs[..|rs| - 1], inDate, outDate, date);
      if Covers(last, date) {
        LexLeTransitive(last.inDate, date, outDate);
        LexLeTransitive(inDate, date, last.outDate);
      }
    }
  }

  /** A booking that passes the availability test keeps the hotel within capacity. */
  lemma BookingKeepsCapacity(h: HotelReservations, r: Reservation)
    requires NonNegative(h.reservations) && WithinCapacity(h) && r.number >= 0
    requires BookedRooms(h.reservations, r.inDate, r.outDate) + r.number <= h.totalRooms
    ensures NonNegative(Append(h, r).reservations) && WithinCapacity(Append(h, r))
  {
    var rs := Append(h, r).reservations;
    assert rs[..|rs| - 1] == h.reservations;
    forall date: string
      ensures Occupancy(rs, date) <= h.totalRooms
    {
      if Covers(r, date) {
        OccupancyWithinBooked(h.reservations, r.inDate, r.outDate, date);
      }
    }
  }

  /** Once booked, a reservation with check-in not after check-out counts in full
      against every later request for the same dates. */
  lemma BookingCountsAgainstSameDates(rs: seq<Reservation>, r: Reservation)
    requires LexLe(r.inDate, r.outDate)
    ensures BookedRooms(rs + [r], r.inDate, r.outDate) == BookedRooms(rs, r.inDate, r.outDate) + r.number
  {
    assert (rs + [r])[..|rs|] == rs;
  }

  /** The overlap test is closed at both ends: a stay that ends on the day a request
      starts, or starts on the day it ends, competes with it. */
  lemma SharedBoundaryOverlaps(r: Reservation, inDate: string, outDate: string)
    requires LexLe(r.inDate, r.outDate) && LexLe(inDate, outDate)
    requires r.outDate == inDate || r.inDate == outDate
    ensures Overlaps(r, inDate, outDate)
  {
    if r.outDate == inDate {
      LexLeReflexive(inDate);
      LexLeTransitive(r.inDate, r.outDate, outDate);
    } else {
      LexLeReflexive(outDate);
      LexLeTransitive(inDate, outDate, r.outDate);
    }
  }

  /** The seed rendered as facts: hotels "1" to "80" with their capacities, all empty
      except hotel "4", which holds the one reservation for Alice. */
  ghost predicate IsSeed(m: Ledger)
  {
    && m.Keys == (set i | 1 <= i <= 80 :: NatToString(i))
    && (forall i :: 1 <= i <= 6 ==> m[NatToString(i)].totalRooms == 200)
    && (forall i :: 7 <= i <= 80 ==>
          m[NatToString(i)].totalRooms == (if i % 3 == 1 then 300 else if i % 3 == 2 then 250 else 200))
    && (forall i :: 1 <= i <= 80 && i != 4 ==> m[NatToString(i)].reservations == [])
    && "4" in m
    && m["4"].reservations == [Reservation("4", "Alice", "2015-04-09", "2015-04-10", 1)]
  }

  /** The seeded capacity of hotel `i`: 200 for hotels 1 to 6; from 7 on, 300, 250 or 200
      by the remainder modulo 3. */
  function SeedCapacity(i: nat): int
  {
    if i <= 6 then 200 else if i % 3 == 1 then 300 else if i % 3 == 2 then 250 else 200
  }

  /** The empty record of hotel `i` with its seeded capacity. */
  function EmptyHotel(i: nat): HotelReservations
  {
    HotelReservations([], SeedCapacity(i))
  }

  /** The capacity of generated hotel `i`, chosen by its remainder modulo 3. */
  method GeneratedRooms(i: nat) returns (roomNum: int)
    requires 7 <= i
    ensures HotelReservations([], roomNum) == EmptyHotel(i)
  {
    roomNum := 200;
    if i % 3 == 1 {
      roomNum := 300;
    } else if i % 3 == 2 {
      roomNum := 250;
    }
  }

  /** The two loops of `InitializeSampleData`: hotels "1" to "80" with their
      capacities and no reservations. */
  method SeedCapacities() returns (m: Ledger)
    ensures m.Keys == (set i | 1 <= i <= 80 :: NatToString(i))
    ensures forall i :: 1 <= i <= 6 ==> m[NatToString(i)] == HotelReservations([], 200)
    ensures forall i :: 7 <= i <= 80 ==>
      m[NatToString(i)] == HotelReservations([], if i % 3 == 1 then 300 else if i % 3 == 2 then 250 else 200)
  {
    m := map[];
    var i := 1;
    while i <= 6
      invariant 1 <= i <= 7
      invariant m.Keys == set j | 1 <= j < i :: NatToString(j)
      invariant forall j :: 1 <= j < i ==> m[NatToString(j)] == EmptyHotel(j)
    {
      NumberedInsert(m, EmptyHotel, 1, i);
      m := m[NatToString(i) := HotelReservations([], 200)];
      i := i + 1;
    }
    while i <= 80
      invariant 7 <= i <= 81
      invariant m.Keys == set j | 1 <= j < i :: NatToString(j)
      invariant forall j :: 1 <= j < i ==> m[NatToString(j)] == EmptyHotel(j)
    {
      var roomNum := GeneratedRooms(i);
      NumberedInsert(m, EmptyHotel, 1, i);
      m := m[NatToString(i) := HotelReservations([], roomNum)];
      i := i + 1;
    }
  }

  /** `InitializeSampleData`: the capacities, then Alice's reservation at hotel "4". */
  method InitializeSampleData() returns (m: Ledger)
    ensures IsSeed(m)
  {
    m := SeedCapacities();
    assert NatToString(4) == "4";
    assert "4" in m;
    var alice := Reservation("4", "Alice", "2015-04-09", "2015-04-10", 1);
    m := m["4" := Append(m["4"], alice)];
    forall i | 1 <= i <= 80 && i != 4
      ensures NatToString(i) != "4"
    {
      if NatToString(i) == "4" {
        NatToStringInjective(i, 4);
      }
    }
  }

  /** The seeded table does not overbook. */
  lemma SeedNoOverbooking(m: Ledger)
    requires IsSeed(m)
    ensures NoOverbooking(m)
  {
    forall id | id in m
      ensures NonNegative(m[id].reservations) && WithinCapacity(m[id])
    {
      var j :| 1 <= j <= 80 && id == NatToString(j);
      if id == "4" {
        forall date: string
          ensures Occupancy(m[id].reservations, date) <= m[id].totalRooms
        {
          assert m[id].reservations[..0] == [];
          NatToStringInjective(j, 4);
        }
      }
    }
  }

  class ReservationService {
    var hotels: Ledger

    /** The service starts from the seeded table. */
    constructor ()
      ensures IsSeed(hotels)
      ensures NoOverbooking(hotels)
    {
      var seed := InitializeSampleData();
      hotels := seed;
      new;
      SeedNoOverbooking(hotels);
    }

    /** `checkAvailability`: false for an unknown hotel, otherwise the availability rule. */
    method CheckAvailability(hotelId: string, inDate: string, outDate: string, roomNumber: int)
      returns (ok: bool)
      ensures ok == Available(hotels, hotelId, inDate, outDate, roomNumber)
      ensures hotelId !in hotels ==> !ok
    {
      if hotelId !in hotels {
        return false;
      }
      var record := hotels[hotelId];
      var booked := 0;
      var i := 0;
      while i < |record.reservations|
        invariant 0 <= i <= |record.reservations|
        invariant booked == BookedRooms(record.reservations[..i], inDate, outDate)
      {
        var r := record.reservations[i];
        if LexLe(r.inDate, outDate) && LexLe(inDate, r.outDate) {
          booked := booked + r.number;
        }
        assert record.reservations[..i + 1][..i] == record.reservations[..i];
        i := i + 1;
      }
      assert record.reservations[..i] == record.reservations;
      return booked + roomNumber <= record.totalRooms;
    }

    /** `MakeReservation`: the credential check first; then, as one step, the
        availability test and the append of exactly one reservation. */
    method MakeReservation(req: ReservationRequest, checkUser: CheckUserRequest -> HttpResult<CheckUserResponse>)
      returns (resp: ReservationResponse)
      modifies this
      ensures var auth := Authenticate(checkUser(CheckUserRequest(req.username, req.password)));
        && (auth == Unverified ==> resp.message == FailedToVerify && hotels == old(hotels))
        && (auth == Rejected ==> resp.message == InvalidCredentials && hotels == old(hotels))
        && (auth == Accepted && !Available(old(hotels), req.hotelId, req.inDate, req.outDate, req.roomNumber) ==>
              resp.message == NoAvailability && hotels == old(hotels))
        && (auth == Accepted && Available(old(hotels), req.hotelId, req.inDate, req.outDate, req.roomNumber) ==>
              resp.message == Confirmed &&
              hotels == old(hotels)[req.hotelId := Append(old(hotels)[req.hotelId], NewReservation(req))])
      ensures old(NoOverbooking(hotels)) && req.roomNumber >= 0 ==> NoOverbooking(hotels)
    {
      var userResult := checkUser(CheckUserRequest(req.username, req.password));
      if userResult.NoResult? || userResult.status != 200 {
        return ReservationResponse(FailedToVerify);
      }
      if userResult.body.None? || !userResult.body.value.found {
        return ReservationResponse(InvalidCredentials);
      }
      var ok := CheckAvailability(req.hotelId, req.inDate, req.outDate, req.roomNumber);
      if !ok {
        return ReservationResponse(NoAvailability);
      }
      var reservation := NewReservation(req);
      ghost var before := hotels;
      hotels := hotels[req.hotelId := Append(hotels[req.hotelId], reservation)];
      if NoOverbooking(before) && req.roomNumber >= 0 {
        BookingKeepsCapacity(before[req.hotelId], reservation);
      }
      resp := ReservationResponse(Confirmed);
    }
  }
}
