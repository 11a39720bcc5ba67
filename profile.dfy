/**
  The profile service: a read-only table from hotel id to hotel profile, and the lookup
  of the profiles of a list of ids.
*/
module Profiles {
  import opened Messages

  type ProfileTable = map<string, HotelProfile>

  /** The profiles `GetProfiles` returns: one per requested id found in the table, in
      request order; unknown ids are skipped. */
  function FoundProfiles(table: ProfileTable, ids: seq<string>): seq<HotelProfile>
  {
    if ids == [] then []
    else FoundProfiles(table, ids[..|ids| - 1])
         + (if ids[|ids| - 1] in table then [table[ids[|ids| - 1]]] else [])
  }

  /** Every stored profile is filed under its own id. */
  ghost predicate KeyedById(table: ProfileTable)
  {
    forall id :: id in table ==> table[id].id == id
  }

  /** The lookup of a concatenation is the concatenation of the lookups: output follows
      request order, and each request id contributes on its own. */
  lemma {:induction false} FoundProfilesAppend(table: ProfileTable, a: seq<string>, b: seq<string>)
    ensures FoundProfiles(table, a + b) == FoundProfiles(table, a) + FoundProfiles(table, b)
  {
    if b != [] {
      assert (a + b)[..|a + b| - 1] == a + b[..|b| - 1];
      FoundProfilesAppend(table, a, b[..|b| - 1]);
    } else {
      assert a + b == a;
    }
  }

  /** One requested id yields its stored profile, or nothing when it is unknown. */
  lemma FoundProfilesSingle(table: ProfileTable, id: string)
    ensures FoundProfiles(table, [id]) == if id in table then [table[id]] else []
  {
    assert [id][..0] == [];
  }

  /** A duplicated id yields a duplicated profile. */
  lemma FoundProfilesDuplicate(table: ProfileTable, id: string)
    requires id in table
    ensures FoundProfiles(table, [id, id]) == [table[id], table[id]]
  {
    FoundProfilesAppend(table, [id], [id]);
    FoundProfilesSingle(table, id);
    assert [id, id] == [id] + [id];
  }

  /** No more profiles than requested ids; exactly as many when every id is known. */
  lemma {:induction false} FoundProfilesLength(table: ProfileTable, ids: seq<string>)
    ensures |FoundProfiles(table, ids)| <= |ids|
    ensures (forall i :: 0 <= i < |ids| ==> ids[i] in table) ==> |FoundProfiles(table, ids)| == |ids|
  {
    if ids != [] {
      FoundProfilesLength(table, ids[..|ids| - 1]);
    }
  }

  /** Each returned profile is the stored entry of a requested id, and, in a table keyed
      by id, its own id is that requested id; every known requested id is returned. */
  lemma {:induction false} FoundProfilesMembers(table: ProfileTable, ids: seq<string>)
    ensures forall p :: p in FoundProfiles(table, ids) ==> exists id :: id in ids && id in table && table[id] == p
    ensures KeyedById(table) ==> forall p :: p in FoundProfiles(table, ids) ==> p.id in ids && table[p.id] == p
    ensures forall id :: id in ids && id in table ==> table[id] in FoundProfiles(table, ids)
  {
    if ids != [] {
      var init := ids[..|ids| - 1];
      FoundProfilesMembers(table, init);
      assert forall id :: id in init ==> id in ids;
      assert forall id :: id in ids ==> id in init || id == ids[|ids| - 1];
    }
  }

  class ProfileService {
    const profiles: ProfileTable

    /** The table is filled by filing each seed profile under its own id, as
        `InitializeSampleData` does. */
    constructor (seed: seq<HotelProfile>)
      ensures KeyedById(profiles)
      ensures profiles.Keys == set p | p in seed :: p.id
      ensures forall id :: id in profiles ==> profiles[id] in seed
    {
      var m: ProfileTable := map[];
      var i := 0;
      while i < |seed|
        invariant 0 <= i <= |seed|
        invariant KeyedById(m)
        invariant m.Keys == set p | p in seed[..i] :: p.id
        invariant forall id :: id in m ==> m[id] in seed[..i]
      {
        assert seed[..i + 1] == seed[..i] + [seed[i]];
        m := m[seed[i].id := seed[i]];
        i := i + 1;
      }
      assert seed[..i] == seed;
      profiles := m;
    }

    /** `GetProfiles`: the stored profiles of the requested ids, in request order. The
        locale plays no part, and the table is not changed. */
    method GetProfiles(req: GetProfilesRequest) returns (resp: GetProfilesResponse)
      ensures resp.profiles == FoundProfiles(profiles, req.hotelIds)
    {
      var out := [];
      var i := 0;
      while i < |req.hotelIds|
        invariant 0 <= i <= |req.hotelIds|
        invariant out == FoundProfiles(profiles, req.hotelIds[..i])
      {
        var hotelId := req.hotelIds[i];
        if hotelId in profiles {
          out := out + [profiles[hotelId]];
        }
        assert req.hotelIds[..i + 1][..i] == req.hotelIds[..i];
        i := i + 1;
      }
      assert req.hotelIds[..i] == req.hotelIds;
      resp := GetProfilesResponse(out);
    }
  }
}
