/**
  The rate service: a read-only table from hotel id to its room types, and the rate
  plans for a list of ids and a date range.
*/
module Rates {
  import opened Text
  import opened Messages

  type RateTable = map<string, seq<RoomType>>

  /** The plans of one hotel: one per stored room type, in stored order. */
  function PlansOf(hotelId: string, roomTypes: seq<RoomType>, inDate: string, outDate: string): seq<RatePlan>
  {
    if roomTypes == [] then []
    else PlansOf(hotelId, roomTypes[..|roomTypes| - 1], inDate, outDate)
         + [RatePlan(hotelId, roomTypes[|roomTypes| - 1].code, inDate, outDate, roomTypes[|roomTypes| - 1])]
  }

  /** The plans `GetRates` returns: request order first, stored room-type order second;
      unknown ids contribute nothing. */
  function RatePlans(table: RateTable, ids: seq<string>, inDate: string, outDate: string): seq<RatePlan>
  {
    if ids == [] then []
    else RatePlans(table, ids[..|ids| - 1], inDate, outDate)
         + (if ids[|ids| - 1] in table then PlansOf(ids[|ids| - 1], table[ids[|ids| - 1]], inDate, outDate) else [])
  }

  /** The number of stored room types over the known requested ids. */
  function RoomTypeCount(table: RateTable, ids: seq<string>): nat
  {
    if ids == [] then 0
    else RoomTypeCount(table, ids[..|ids| - 1])
         + (if ids[|ids| - 1] in table then |table[ids[|ids| - 1]]| else 0)
  }

  /** Plan `k` of a hotel is built from room type `k`: the requested hotel id and dates,
      the room type's code, and the room type itself. */
  lemma {:induction false} PlansOfAt(hotelId: string, roomTypes: seq<RoomType>, inDate: string, outDate: string)
    ensures |PlansOf(hotelId, roomTypes, inDate, outDate)| == |roomTypes|
    ensures forall k :: 0 <= k < |roomTypes| ==>
      PlansOf(hotelId, roomTypes, inDate, outDate)[k] == RatePlan(hotelId, roomTypes[k].code, inDate, outDate, roomTypes[k])
  {
    if roomTypes != [] {
      PlansOfAt(hotelId, roomTypes[..|roomTypes| - 1], inDate, outDate);
    }
  }

  /** The plans of a concatenation are the concatenation of the plans. */
  lemma {:induction false} RatePlansAppend(table: RateTable, a: seq<string>, b: seq<string>, inDate: string, outDate: string)
    ensures RatePlans(table, a + b, inDate, outDate) == RatePlans(table, a, inDate, outDate) + RatePlans(table, b, inDate, outDate)
  {
    if b != [] {
      assert (a + b)[..|a + b| - 1] == a + b[..|b| - 1];
      RatePlansAppend(table, a, b[..|b| - 1], inDate, outDate);
    } else {
      assert a + b == a;
    }
  }

  /** One requested id yields its hotel's plans, none when it is unknown. */
  lemma RatePlansSingle(table: RateTable, id: string, inDate: string, outDate: string)
    ensures RatePlans(table, [id], inDate, outDate) == if id in table then PlansOf(id, table[id], inDate, outDate) else []
  {
    assert [id][..0] == [];
  }

  /** The plan count is the sum of the room-type counts of the known requested ids. */
  lemma {:induction false} RatePlansCount(table: RateTable, ids: seq<string>, inDate: string, outDate: string)
    ensures |RatePlans(table, ids, inDate, outDate)| == RoomTypeCount(table, ids)
  {
    if ids != [] {
      RatePlansCount(table, ids[..|ids| - 1], inDate, outDate);
      var last := ids[|ids| - 1];
      if last in table {
        PlansOfAt(last, table[last], inDate, outDate);
      }
    }
  }

  /** Every plan carries the requested dates, a requested and known hotel id, one of
      that hotel's stored room types, and that room type's code. */
  lemma {:induction false} RatePlansFields(table: RateTable, ids: seq<string>, inDate: string, outDate: string)
    ensures forall plan :: plan in RatePlans(table, ids, inDate, outDate) ==>
      && plan.inDate == inDate && plan.outDate == outDate
      && plan.hotelId in ids && plan.hotelId in table
      && plan.roomType in table[plan.hotelId] && plan.code == plan.roomType.code
  {
    if ids != [] {
      var init := ids[..|ids| - 1];
      var last := ids[|ids| - 1];
      RatePlansFields(table, init, inDate, outDate);
      assert forall id :: id in init ==> id in ids;
      if last in table {
        PlansOfAt(last, table[last], inDate, outDate);
      }
    }
  }

  /** The seeded standard room with the given bookable rate; the total rate adds 10%
      and the inclusive rate a further 20%. */
  function StandardRoom(bookable: real): RoomType
  {
    RoomType(bookable, "STD", "Standard Room", bookable * 1.1, bookable * 1.1 * 1.2)
  }

  /** The seeded deluxe room with the given bookable rate. */
  function DeluxeRoom(bookable: real): RoomType
  {
    RoomType(bookable, "DLX", "Deluxe Room", bookable * 1.1, bookable * 1.1 * 1.2)
  }

  /** The room types seeded for hotel `i`: a standard then a deluxe room. */
  function SeedRoomTypes(standardRate: nat -> real, deluxeRate: nat -> real, i: nat): seq<RoomType>
  {
    [StandardRoom(standardRate(i)), DeluxeRoom(deluxeRate(i))]
  }

  /** `InitializeSampleRates`: hotels "1" to "10", each with a standard then a deluxe
      room. `standardRate(i)` and `deluxeRate(i)` are the bookable rates the service
      draws at random for hotel `i`. */
  method InitializeSampleRates(standardRate: nat -> real, deluxeRate: nat -> real) returns (m: RateTable)
    ensures m.Keys == set i | 1 <= i <= 10 :: NatToString(i)
    ensures forall i :: 1 <= i <= 10 ==> m[NatToString(i)] == SeedRoomTypes(standardRate, deluxeRate, i)
  {
    m := map[];
    var i := 1;
    while i <= 10
      invariant 1 <= i <= 11
      invariant m.Keys == set j | 1 <= j < i :: NatToString(j)
      invariant forall j :: 1 <= j < i ==> m[NatToString(j)] == SeedRoomTypes(standardRate, deluxeRate, j)
    {
      var standard := StandardRoom(standardRate(i));
      var deluxe := DeluxeRoom(deluxeRate(i));
      NumberedInsert(m, j => SeedRoomTypes(standardRate, deluxeRate, j), 1, i);
      m := m[NatToString(i) := [standard, deluxe]];
      i := i + 1;
    }
  }

  class RateService {
    const hotelRates: RateTable

    /** The service starts from the seeded table: exactly the ids "1" to "10", each with
        two room types, "STD" then "DLX". */
    constructor (standardRate: nat -> real, deluxeRate: nat -> real)
      ensures hotelRates.Keys == set i | 1 <= i <= 10 :: NatToString(i)
      ensures forall i :: 1 <= i <= 10 ==>
        hotelRates[NatToString(i)] == SeedRoomTypes(standardRate, deluxeRate, i)
      ensures forall id :: id in hotelRates ==>
        |hotelRates[id]| == 2 && hotelRates[id][0].code == "STD" && hotelRates[id][1].code == "DLX"
    {
      var m: RateTable := InitializeSampleRates(standardRate, deluxeRate);
      forall id | id in m
        ensures |m[id]| == 2 && m[id][0].code == "STD" && m[id][1].code == "DLX"
      {
        var j :| 1 <= j <= 10 && id == NatToString(j);
      }
      hotelRates := m;
    }

  /** `GetRates`: for each requested id in the table, one plan per stored room type. */
    method GetRates(req: GetRatesRequest) returns (resp: GetRatesResponse)
      ensures resp.ratePlans == RatePlans(hotelRates, req.hotelIds, req.inDate, req.outDate)
    {
      var plans := [];
      var i := 0;
      while i < |req.hotelIds|
        invariant 0 <= i <= |req.hotelIds|
        invariant plans == RatePlans(hotelRates, req.hotelIds[..i], req.inDate, req.outDate)
      {
        var hotelId := req.hotelIds[i];
        assert req.hotelIds[..i + 1][..i] == req.hotelIds[..i];
        if hotelId in hotelRates {
          var roomTypes := hotelRates[hotelId];
          var j := 0;
          ghost var before := plans;
          while j < |roomTypes|
            invariant 0 <= j <= |roomTypes|
            invariant plans == before + PlansOf(hotelId, roomTypes[..j], req.inDate, req.outDate)
          {
            var roomType := roomTypes[j];
            plans := plans + [RatePlan(hotelId, roomType.code, req.inDate, req.outDate, roomType)];
            assert roomTypes[..j + 1][..j] == roomTypes[..j];
            j := j + 1;
          }
          assert roomTypes[..j] == roomTypes;
        }
        i := i + 1;
      }
      assert req.hotelIds[..i] == req.hotelIds;
      resp := GetRatesResponse(plans);
    }
  }
}
