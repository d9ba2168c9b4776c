/**
 * The user store `UserService` over a key-value backend. The backend holds an
 * integer counter at key `user_id_gen` and one record per user at key
 * `users/<id>`; here the records are a map from key to `User` and the counter
 * is an integer beside it.
 *
 * `Store` and the functions over it are the specification; the class
 * `UserService` holds the same state in fields that its methods update step
 * by step, and each method is proved to agree with its specification function.
 */
module Services {
  import opened Wrappers
  import opened Decimal

  /** The key prefix of user records and the length the listing strips off. */
  const UserKeyPrefix: string := "users/"
  const StrippedLength: nat := 6
  /** The key of the id counter. */
  const IdGenKey: string := "user_id_gen"
  /** The `error` field of the payload `delete_user` returns for a missing user. */
  const NoUserError: string := "no user"

  /** The record serialised at `users/<id>`: the JSON object `{name, email}`. */
  datatype User = User(name: string, email: string)

  /** The backend: the user records by key, and the value of `user_id_gen` (0 when unset). */
  datatype Store = Store(users: map<string, User>, idGen: int)

  /** What `delete_user` returns: the removed record, or `{error: 'no user', id}`. */
  datatype DeleteResult = Deleted(user: User) | NoUser(error: string, id: int)

  /** A key the listing's scan pattern `users/` followed by a wildcard matches. */
  predicate MatchesUserPattern(key: string)
    // the length stripped by the listing is exactly the length of the prefix
    ensures MatchesUserPattern(key) <==> |key| >= StrippedLength && key[..StrippedLength] == UserKeyPrefix
  {
    |key| >= |UserKeyPrefix| && key[..|UserKeyPrefix|] == UserKeyPrefix
  }

  /** The listing's `int(full_user_path[6:])`; None where `int` would raise. */
  function IdOfKey(key: string): (r: Option<int>)
    // `int('')` raises, so the bare prefix and anything shorter give no id
    ensures r.Some? ==> |key| > StrippedLength
  {
    ParseInt(if |key| >= StrippedLength then key[StrippedLength..] else "")
  }

  /** `user_url`: the key of user `id`. The listing recovers `id` from it. */
  function UserUrl(id: int): (key: string)
    ensures MatchesUserPattern(key)
    ensures IdOfKey(key) == Some(id)
  {
    var key := UserKeyPrefix + IntToDecimal(id);
    assert key[StrippedLength..] == IntToDecimal(id);
    IntRoundTrip(id);
    key
  }

  lemma UserUrlInjective(a: int, b: int)
    ensures UserUrl(a) == UserUrl(b) <==> a == b
  {
    if UserUrl(a) == UserUrl(b) {
      assert IdOfKey(UserUrl(a)) == IdOfKey(UserUrl(b));
    }
  }

  /** The counter lives outside the scan of user keys. */
  lemma IdGenKeyIsNotAUserKey()
    ensures !MatchesUserPattern(IdGenKey)
    ensures forall id :: UserUrl(id) != IdGenKey
  {
    assert IdGenKey[..|UserKeyPrefix|] != UserKeyPrefix by {
      assert IdGenKey[5] != UserKeyPrefix[5];
    }
  }

  /**
   * A key the store can hold: it is in the scan, parses to an id between 1
   * and the counter, and is the canonical `user_url` of that id.
   */
  predicate WellFormedUserKey(key: string, idGen: int) {
    && MatchesUserPattern(key)
    && IdOfKey(key).Some?
    && 1 <= IdOfKey(key).value <= idGen
    && UserUrl(IdOfKey(key).value) == key
  }

  /** The store invariant: the counter is not negative and every user key is well formed. */
  predicate Consistent(s: Store) {
    && s.idGen >= 0
    && forall key :: key in s.users ==> WellFormedUserKey(key, s.idGen)
  }

  /** `get_user` with the missing key made explicit: None where the source's `json.loads(None)` raises. */
  function Get(s: Store, id: int): (r: Option<User>)
    ensures r.Some? <==> UserUrl(id) in s.users
    // on a consistent store only ids the counter has handed out are found
    ensures Consistent(s) && r.Some? ==> 1 <= id <= s.idGen
  {
    if UserUrl(id) in s.users then
      assert Consistent(s) ==> WellFormedUserKey(UserUrl(id), s.idGen);
      Some(s.users[UserUrl(id)])
    else None
  }

  /** `create_user`: increment the counter, then write the record under the new id. */
  function Create(s: Store, name: string, email: string): (r: (Store, int))
    ensures r.1 == s.idGen + 1 && r.0.idGen == r.1
    ensures Get(r.0, r.1) == Some(User(name, email))
    ensures r.0.users.Keys == s.users.Keys + {UserUrl(r.1)}
    ensures forall key :: key in s.users && key != UserUrl(r.1) ==> r.0.users[key] == s.users[key]
    ensures forall id :: id != r.1 ==> Get(r.0, id) == Get(s, id)
    ensures Consistent(s) ==> UserUrl(r.1) !in s.users && Consistent(r.0)
  {
    var id := s.idGen + 1;
    (Store(s.users[UserUrl(id) := User(name, email)], id), id)
  }

  /** `delete_user`: read the record; remove it and return it, or return the not-found payload. */
  function Delete(s: Store, id: int): (r: (Store, DeleteResult))
    ensures r.0.idGen == s.idGen
    ensures Get(r.0, id) == None
    ensures forall j :: j != id ==> Get(r.0, j) == Get(s, j)
    ensures r.0.users.Keys == s.users.Keys - {UserUrl(id)}
    ensures forall key :: key in r.0.users ==> r.0.users[key] == s.users[key]
    ensures Get(s, id).Some? ==> r.1 == Deleted(Get(s, id).value)
    ensures Get(s, id).None? ==> r.1 == NoUser(NoUserError, id) && r.0 == s
    ensures Consistent(s) ==> Consistent(r.0)
  {
    match Get(s, id)
    case Some(user) => (Store(s.users - {UserUrl(id)}, s.idGen), Deleted(user))
    case None => (s, NoUser(NoUserError, id))
  }

  /** A call on the store, for statements about sequences of calls. */
  datatype Call = CreateCall(name: string, email: string) | GetCall(id: int) | DeleteCall(id: int) | ListCall

  /** The store after `calls`, and the ids the create calls among them returned, in order. */
  function Replay(s: Store, calls: seq<Call>): (Store, seq<int>)
    decreases |calls|
  {
    if calls == [] then (s, [])
    else
      match calls[0]
      case CreateCall(name, email) =>
        var (s1, id) := Create(s, name, email);
        var (s2, ids) := Replay(s1, calls[1..]);
        (s2, [id] + ids)
      case DeleteCall(id) => Replay(Delete(s, id).0, calls[1..])
      case GetCall(_) => Replay(s, calls[1..])
      case ListCall => Replay(s, calls[1..])
  }

  /**
   * Over any sequence of calls the created ids are the next values of the
   * counter, one after another: strictly increasing, and never an id the
   * store held or had handed out before, whatever was deleted in between.
   */
  lemma {:induction false} CreatedIdsAreFresh(s: Store, calls: seq<Call>)
    requires Consistent(s)
    ensures var (s', ids) := Replay(s, calls);
      && Consistent(s')
      && s'.idGen == s.idGen + |ids|
      && (forall t :: 0 <= t < |ids| ==> ids[t] == s.idGen + 1 + t)
      && (forall a, b :: 0 <= a < b < |ids| ==> ids[a] < ids[b])
      && (forall t :: 0 <= t < |ids| ==> UserUrl(ids[t]) !in s.users)
    decreases |calls|
  {
    if calls != [] {
      match calls[0]
      case CreateCall(name, email) =>
        var (s1, id) := Create(s, name, email);
        CreatedIdsAreFresh(s1, calls[1..]);
        var (s2, ids) := Replay(s1, calls[1..]);
        assert Replay(s, calls) == (s2, [id] + ids);
      case DeleteCall(id) =>
        var s1 := Delete(s, id).0;
        CreatedIdsAreFresh(s1, calls[1..]);
      case GetCall(_) =>
        CreatedIdsAreFresh(s, calls[1..]);
      case ListCall =>
        CreatedIdsAreFresh(s, calls[1..]);
    }
  }

  /** How a Python call ends: it returns a value or raises. */
  datatype Outcome<T> = Returned(value: T) | Raised

  /** `get_user` as written: `json.loads` of the missing value raises. */
  function GetAsWritten(s: Store, id: int): (r: Outcome<User>)
    ensures r.Raised? <==> Get(s, id).None?
    ensures r.Returned? ==> Get(s, id) == Some(r.value)
  {
    if UserUrl(id) in s.users then Returned(s.users[UserUrl(id)]) else Raised
  }

  /**
   * `delete_user` as written: its first step is `get_user`, which raises on a
   * missing key. A returned record is a two-field dict, so `if user:` always
   * takes the delete branch.
   */
  function DeleteAsWritten(s: Store, id: int): (r: Outcome<(Store, DeleteResult)>)
    ensures r.Raised? <==> Get(s, id).None?
    ensures r.Returned? ==> r.value.1 == Deleted(Get(s, id).value) && r.value.0.idGen == s.idGen
  {
    match GetAsWritten(s, id)
    case Raised => Raised
    case Returned(user) => Returned((Store(s.users - {UserUrl(id)}, s.idGen), Deleted(user)))
  }

  /**
   * As written, the not-found branch of `delete_user` is never reached: on a
   * present id it agrees with `Delete`, on a missing id it raises instead of
   * returning the `no user` payload that `Delete` returns.
   */
  lemma {:induction false} NotFoundBranchUnreachableAsWritten(s: Store, id: int)
    ensures Get(s, id).Some? ==> DeleteAsWritten(s, id) == Returned(Delete(s, id))
    ensures Get(s, id).None? ==> DeleteAsWritten(s, id) == Raised && Delete(s, id).1 == NoUser(NoUserError, id)
    ensures DeleteAsWritten(s, id).Returned? ==> DeleteAsWritten(s, id).value.1.Deleted?
  {
  }

  /** The input that shows it: deleting id 7 from an empty store. */
  lemma DeleteMissingRaisesAsWritten()
    ensures DeleteAsWritten(Store(map[], 0), 7) == Raised
    ensures Delete(Store(map[], 0), 7) == (Store(map[], 0), NoUser("no user", 7))
  {
  }

  /** `UserService`: the backend connection, holding the backend's state in fields. */
  class UserService {
    /** The records at keys `users/<id>`. */
    var users: map<string, User>
    /** The value of `user_id_gen`. */
    var idGen: int

    function State(): Store
      reads this
    {
      Store(users, idGen)
    }

    ghost predicate Valid()
      reads this
    {
      Consistent(State())
    }

    /** Connect to a backend that holds `users0` and the counter `idGen0`. */
    constructor (users0: map<string, User>, idGen0: int)
      requires Consistent(Store(users0, idGen0))
      ensures Valid() && State() == Store(users0, idGen0)
    {
      users := users0;
      idGen := idGen0;
    }

    method CreateUser(name: string, email: string) returns (id: int)
      requires Valid()
      modifies this
      ensures Valid()
      ensures (State(), id) == Create(old(State()), name, email)
    {
      var user := User(name, email);
      idGen := idGen + 1;
      id := idGen;
      users := users[UserUrl(id) := user];
    }

    method GetUser(id: int) returns (user: Option<User>)
      ensures user == Get(State(), id)
      ensures user.Some? <==> UserUrl(id) in users
    {
      var key := UserUrl(id);
      if key in users {
        user := Some(users[key]);
      } else {
        user := None;
      }
    }

    method DeleteUser(id: int) returns (result: DeleteResult)
      requires Valid()
      modifies this
      ensures Valid()
      ensures (State(), result) == Delete(old(State()), id)
    {
      var user := GetUser(id);
      match user
      case Some(u) =>
        users := users - {UserUrl(id)};
        result := Deleted(u);
      case None =>
        result := NoUser(NoUserError, id);
    }

    /**
     * `get_user_ids`: scan the keys matching the pattern `users/` plus a
     * wildcard, in whatever order the backend yields them, strip the prefix
     * and parse the id. The result holds each stored id exactly once.
     */
    method GetUserIds() returns (ids: seq<int>)
      requires Valid()
      ensures |ids| == |users|
      ensures forall t :: 0 <= t < |ids| ==> Get(State(), ids[t]).Some?
      ensures forall id :: Get(State(), id).Some? ==> id in ids
      ensures Distinct(ids)
    {
      var pending := set key | key in users && MatchesUserPattern(key);
      assert pending == users.Keys by {
        forall key | key in users ensures MatchesUserPattern(key) {
          assert WellFormedUserKey(key, idGen);
        }
      }
      ids := [];
      while pending != {}
        invariant ScanInvariant(users, pending, ids)
        decreases pending
      {
        var key :| key in pending;
        assert WellFormedUserKey(key, idGen);
        var id := IdOfKey(key).value;
        ScanStep(users, pending, ids, key, id);
        ids := ids + [id];
        pending := pending - {key};
      }
    }
  }

  predicate Distinct(s: seq<int>) {
    forall a, b :: 0 <= a < b < |s| ==> s[a] != s[b]
  }

  /** What the listing's loop keeps: `ids` holds, once each, the ids of the keys already scanned. */
  ghost predicate ScanInvariant(users: map<string, User>, pending: set<string>, ids: seq<int>) {
    && pending <= users.Keys
    && |ids| + |pending| == |users|
    && (forall t :: 0 <= t < |ids| ==> UserUrl(ids[t]) in users && UserUrl(ids[t]) !in pending)
    && (forall id :: UserUrl(id) in users && UserUrl(id) !in pending ==> id in ids)
    && Distinct(ids)
  }

  lemma ScanStep(users: map<string, User>, pending: set<string>, ids: seq<int>, key: string, id: int)
    requires ScanInvariant(users, pending, ids)
    requires key in pending && UserUrl(id) == key
    ensures ScanInvariant(users, pending - {key}, ids + [id])
  {
    var pending', ids' := pending - {key}, ids + [id];
    assert |pending'| == |pending| - 1;
    forall t | 0 <= t < |ids'| ensures UserUrl(ids'[t]) in users && UserUrl(ids'[t]) !in pending' {
      if t < |ids| {
        assert ids'[t] == ids[t];
      }
    }
    forall j | UserUrl(j) in users && UserUrl(j) !in pending' ensures j in ids' {
      if UserUrl(j) == key {
        UserUrlInjective(j, id);
        assert ids'[|ids|] == j;
      } else {
        assert j in ids;
      }
    }
    forall a, b | 0 <= a < b < |ids'| ensures ids'[a] != ids'[b] {
      if b == |ids| {
        assert UserUrl(ids[a]) !in pending;
      } else {
        assert ids'[a] == ids[a] && ids'[b] == ids[b];
      }
    }
  }
}
