/**
  The user service: a credential store from user name to password, with registration
  (insert when absent) and an exact-match credential check.
*/
module Users {
  import opened Text
  import opened Messages

  const AlreadyExists := "User already exists"
  const Registered := "User registered successfully"

  /** The seeded user name for number `i`: `Cornell_` followed by its decimal digits. */
  function CornellName(i: nat): string
  {
    "Cornell_" + NatToString(i)
  }

  /** The seeded password for number `i`: its decimal digits written ten times. */
  function CornellPassword(i: nat): string
  {
    Repeat(NatToString(i), 10)
  }

  /** The credential check: the user is known and the password matches exactly. */
  predicate Accepts(users: map<string, string>, username: string, password: string)
  {
    username in users && users[username] == password
  }

  lemma CornellNameInjective(a: nat, b: nat)
    requires CornellName(a) == CornellName(b)
    ensures a == b
  {
    assert NatToString(a) == CornellName(a)[8..] == CornellName(b)[8..] == NatToString(b);
    NatToStringInjective(a, b);
  }

  /** The credentials the load generator logs in with. */
  lemma SeedAcceptsCornell1()
    ensures CornellName(1) == "Cornell_1" && CornellPassword(1) == "1111111111"
  {
    assert NatToString(1) == "1";
  }

  /** `InitializeSampleData`: `Cornell_0` to `Cornell_500`, each password built by
      appending the suffix ten times. */
  method InitializeSampleData() returns (users: map<string, string>)
    ensures users.Keys == set i | 0 <= i <= 500 :: CornellName(i)
    ensures forall i :: 0 <= i <= 500 ==> users[CornellName(i)] == CornellPassword(i)
  {
    users := map[];
    var i := 0;
    while i <= 500
      invariant 0 <= i <= 501
      invariant users.Keys == set k | 0 <= k < i :: CornellName(k)
      invariant forall k :: 0 <= k < i ==> users[CornellName(k)] == CornellPassword(k)
    {
      var suffix := NatToString(i);
      var username := "Cornell_" + suffix;
      var password := "";
      var j := 0;
      while j < 10
        invariant 0 <= j <= 10
        invariant password == Repeat(suffix, j)
      {
        password := password + suffix;
        j := j + 1;
      }
      forall k | 0 <= k < i
        ensures CornellName(k) != CornellName(i)
      {
        if CornellName(k) == CornellName(i) {
          CornellNameInjective(k, i);
        }
      }
      assert (set k | 0 <= k < i + 1 :: CornellName(k)) == (set k | 0 <= k < i :: CornellName(k)) + {CornellName(i)};
      users := users[username := password];
      i := i + 1;
    }
  }

  class UserService {
    var users: map<string, string>

    constructor ()
      ensures users.Keys == set i | 0 <= i <= 500 :: CornellName(i)
      ensures forall i :: 0 <= i <= 500 ==> users[CornellName(i)] == CornellPassword(i)
    {
      var seed := InitializeSampleData();
      users := seed;
    }

    /** `RegisterUser`: a known name keeps its password; a new one is added. Either way
        no credential that was accepted before stops being accepted. */
    method RegisterUser(req: UserRequest) returns (resp: UserResponse)
      modifies this
      ensures req.username in old(users) ==> resp.message == AlreadyExists && users == old(users)
      ensures req.username !in old(users) ==>
        resp.message == Registered && users == old(users)[req.username := req.password]
      ensures resp.message == Registered ==> Accepts(users, req.username, req.password)
      ensures forall u, p :: Accepts(old(users), u, p) ==> Accepts(users, u, p)
    {
      if req.username in users {
        return UserResponse(AlreadyExists);
      }
      users := users[req.username := req.password];
      resp := UserResponse(Registered);
    }

    /** `CheckUser`: a read of the store. */
    method CheckUser(req: CheckUserRequest) returns (ok: bool)
      ensures ok == Accepts(users, req.username, req.password)
      ensures ok ==> req.username in users
    {
      if req.username !in users {
        return false;
      }
      return users[req.username] == req.password;
    }
  }
}
