/**
 * The HTTP handlers of the Flask application: each route calls the injected
 * `UserService` and turns its result into a response. Only the logical effect
 * of a response is kept: its status, its JSON body or its redirect target.
 */
module App {
  import opened Wrappers
  import opened Decimal
  import opened Services

  const StatusOk: int := 200
  const StatusFound: int := 302
  const StatusInternalServerError: int := 500
  /** The `error` field of the response to a form without `name` or `email`. */
  const FormErrorMessage: string := "Error getting name or email"

  /** One entry of the index: `{id, href}`. */
  datatype Link = Link(id: int, href: string)

  /** The JSON bodies the handlers produce. */
  datatype Json =
    | UserJson(name: string, email: string)
    | NoUserJson(error: string, id: int)
    | IndexJson(users: seq<Link>)
    | FormErrorJson(error: string, missingField: string)

  datatype Response =
    | JsonResponse(status: int, body: Json)
    | Redirect(status: int, location: string)
    /** An exception escaped the handler; Flask answers with a bare 500. */
    | UncaughtException
  {
    function Status(): int {
      match this
      case JsonResponse(status, _) => status
      case Redirect(status, _) => status
      case UncaughtException => StatusInternalServerError
    }
  }

  function UserToJson(user: User): Json {
    UserJson(user.name, user.email)
  }

  /** `jsonify` of what `delete_user` returned, field for field. */
  function DeleteResultToJson(result: DeleteResult): (r: Json)
    // the body carries the result whole: it can be read back field for field
    ensures r.UserJson? || r.NoUserJson?
    ensures r.UserJson? ==> result == Deleted(User(r.name, r.email))
    ensures r.NoUserJson? ==> result == NoUser(r.error, r.id)
  {
    match result
    case Deleted(user) => UserToJson(user)
    case NoUser(error, id) => NoUserJson(error, id)
  }

  /** The path of a user's page: `'/%d' % id`. */
  function Href(id: int): (r: string)
    ensures |r| >= 2 && r[0] == '/'
    ensures id >= 0 ==> AllDigits(r[1..])
  {
    "/" + IntToDecimal(id)
  }

  /** The route `/<int:user_id>`: a '/' and a non-empty run of digits. */
  function RouteUserId(path: string): (r: Option<int>)
    ensures r.Some? ==> r.value >= 0 && |path| >= 2 && path[0] == '/'
  {
    if |path| >= 2 && path[0] == '/' && AllDigits(path[1..]) then Some(DecimalToNat(path[1..])) else None
  }

  /** The path of every stored user (ids are positive) is routed back to that user's id. */
  lemma HrefRoutesBack(id: int)
    requires id >= 0
    ensures RouteUserId(Href(id)) == Some(id)
  {
    var path := Href(id);
    assert path[1..] == NatToDecimal(id);
    NatRoundTrip(id);
  }

  /**
   * `request.form['name']`, then `request.form['email']`: the two fields, or
   * the first one missing (the key of the exception the lookup raises).
   */
  function ReadForm(form: map<string, string>): (r: Result<(string, string), string>)
    ensures r.Success? <==> "name" in form && "email" in form
    ensures r.Success? ==> r.value == (form["name"], form["email"])
    ensures r.Failure? ==> r.error == (if "name" !in form then "name" else "email")
  {
    if "name" !in form then Failure("name")
    else if "email" !in form then Failure("email")
    else Success((form["name"], form["email"]))
  }

  predicate SortedAscending(s: seq<int>) {
    forall a, b :: 0 <= a < b < |s| ==> s[a] <= s[b]
  }

  predicate StrictlyAscending(s: seq<int>) {
    forall a, b :: 0 <= a < b < |s| ==> s[a] < s[b]
  }

  function Insert(x: int, s: seq<int>): (r: seq<int>)
    ensures multiset(r) == multiset(s) + multiset{x}
    decreases |s|
  {
    if s == [] || x <= s[0] then [x] + s
    else
      assert s == [s[0]] + s[1..];
      [s[0]] + Insert(x, s[1..])
  }

  lemma {:induction false} InsertKeepsOrder(x: int, s: seq<int>)
    requires SortedAscending(s)
    ensures SortedAscending(Insert(x, s))
    decreases |s|
  {
    if s != [] && x > s[0] {
      var rest := Insert(x, s[1..]);
      InsertKeepsOrder(x, s[1..]);
      forall i | 0 <= i < |rest| ensures s[0] <= rest[i] {
        assert rest[i] in multiset(s[1..]) + multiset{x} by {
          assert rest[i] in multiset(rest);
        }
      }
      var r := [s[0]] + rest;
      assert Insert(x, s) == r;
      forall a, b | 0 <= a < b < |r| ensures r[a] <= r[b] {
        if a == 0 {
          assert r[b] == rest[b - 1];
        } else {
          assert r[a] == rest[a - 1] && r[b] == rest[b - 1];
        }
      }
    }
  }

  /** Python's `sorted` on a list of integers: ascending, the same elements. */
  function Sort(s: seq<int>): (r: seq<int>)
    ensures SortedAscending(r)
    ensures multiset(r) == multiset(s)
    decreases |s|
  {
    if s == [] then []
    else
      var rest := Sort(s[1..]);
      assert s == [s[0]] + s[1..];
      InsertKeepsOrder(s[0], rest);
      Insert(s[0], rest)
  }

  lemma {:induction false} DistinctOccursOnce(s: seq<int>, x: int)
    requires Distinct(s)
    ensures multiset(s)[x] <= 1
    decreases |s|
  {
    if s != [] {
      assert s == [s[0]] + s[1..];
      DistinctOccursOnce(s[1..], x);
      if s[0] == x {
        assert x !in s[1..];
      }
    }
  }

  /** Sorting a list without duplicates orders it strictly. */
  lemma SortedDistinctIsStrict(s: seq<int>, r: seq<int>)
    requires Distinct(s) && SortedAscending(r) && multiset(r) == multiset(s)
    ensures StrictlyAscending(r)
  {
    forall a, b | 0 <= a < b < |r| ensures r[a] < r[b] {
      if r[a] == r[b] {
        var x := r[a];
        assert r == r[..b] + r[b..];
        assert x in multiset(r[..b]) && x in multiset(r[b..]);
        assert multiset(r)[x] == multiset(r[..b])[x] + multiset(r[b..])[x];
        DistinctOccursOnce(s, x);
        assert false;
      }
    }
  }

  /**
   * The links built from the sorted listing: one per stored user, strictly
   * ascending, each pointing at the user's page.
   */
  lemma IndexCoversStore(s: Store, ids: seq<int>, sorted: seq<int>, links: seq<Link>)
    requires |ids| == |s.users| && Distinct(ids)
    requires forall t :: 0 <= t < |ids| ==> Get(s, ids[t]).Some?
    requires forall id :: Get(s, id).Some? ==> id in ids
    requires SortedAscending(sorted) && multiset(sorted) == multiset(ids)
    requires |links| == |sorted|
    requires forall t :: 0 <= t < |links| ==> links[t] == Link(sorted[t], Href(sorted[t]))
    ensures |links| == |s.users|
    ensures forall a, b :: 0 <= a < b < |links| ==> links[a].id < links[b].id
    ensures forall t :: 0 <= t < |links| ==> Get(s, links[t].id).Some?
    ensures forall t :: 0 <= t < |links| ==> links[t].href == Href(links[t].id)
    ensures forall id :: Get(s, id).Some? ==> exists t :: 0 <= t < |links| && links[t].id == id
  {
    SortedDistinctIsStrict(ids, sorted);
    assert |sorted| == |ids| by {
      assert |multiset(sorted)| == |multiset(ids)|;
    }
    LinksAreStored(s, ids, sorted, links);
    StoredAreLinked(s, ids, sorted, links);
  }

  /** Every link of the sorted listing points at a stored user. */
  lemma LinksAreStored(s: Store, ids: seq<int>, sorted: seq<int>, links: seq<Link>)
    requires forall t :: 0 <= t < |ids| ==> Get(s, ids[t]).Some?
    requires multiset(sorted) == multiset(ids)
    requires |links| == |sorted|
    requires forall t :: 0 <= t < |links| ==> links[t].id == sorted[t]
    ensures forall t :: 0 <= t < |links| ==> Get(s, links[t].id).Some?
  {
    forall t | 0 <= t < |links| ensures Get(s, links[t].id).Some? {
      assert sorted[t] in multiset(ids);
    }
  }

  /** Every stored user has a link in the sorted listing. */
  lemma StoredAreLinked(s: Store, ids: seq<int>, sorted: seq<int>, links: seq<Link>)
    requires forall id :: Get(s, id).Some? ==> id in ids
    requires multiset(sorted) == multiset(ids)
    requires |links| == |sorted|
    requires forall t :: 0 <= t < |links| ==> links[t].id == sorted[t]
    ensures forall id :: Get(s, id).Some? ==> exists t :: 0 <= t < |links| && links[t].id == id
  {
    forall id | Get(s, id).Some? ensures exists t :: 0 <= t < |links| && links[t].id == id {
      assert id in multiset(sorted);
      var t :| 0 <= t < |sorted| && sorted[t] == id;
      assert links[t].id == id;
    }
  }

  /** The loop of `api_index`: one `{id, href}` link per id, in the order given. */
  method LinkAll(ids: seq<int>) returns (links: seq<Link>)
    ensures |links| == |ids|
    ensures forall t :: 0 <= t < |links| ==> links[t] == Link(ids[t], Href(ids[t]))
  {
    links := [];
    for j := 0 to |ids|
      invariant |links| == j
      invariant forall t :: 0 <= t < j ==> links[t] == Link(ids[t], Href(ids[t]))
    {
      links := links + [Link(ids[j], Href(ids[j]))];
    }
  }

  /**
   * `GET /`: list the stored ids, sort them and link each one. The index has
   * one link per stored user, in strictly ascending id order, each pointing
   * at `/<id>`.
   */
  method ApiIndex(service: UserService) returns (response: Response)
    requires service.Valid()
    ensures response.JsonResponse? && response.status == StatusOk && response.body.IndexJson?
    ensures var links := response.body.users;
      && |links| == |service.users|
      && (forall a, b :: 0 <= a < b < |links| ==> links[a].id < links[b].id)
      && (forall t :: 0 <= t < |links| ==> Get(service.State(), links[t].id).Some?)
      && (forall t :: 0 <= t < |links| ==> links[t].href == Href(links[t].id))
      && (forall id :: Get(service.State(), id).Some? ==> exists t :: 0 <= t < |links| && links[t].id == id)
  {
    var ids := service.GetUserIds();
    var sorted := Sort(ids);
    var links := LinkAll(sorted);
    IndexCoversStore(service.State(), ids, sorted, links);
    response := JsonResponse(StatusOk, IndexJson(links));
  }

  /**
   * `GET /<id>`: the stored record as JSON. On a missing id the source's
   * `json.loads(None)` raises, which Flask answers with a 500.
   */
  method ApiGetUser(service: UserService, id: int) returns (response: Response)
    ensures Get(service.State(), id).Some? ==>
      response == JsonResponse(StatusOk, UserToJson(Get(service.State(), id).value))
    ensures Get(service.State(), id).None? ==> response == UncaughtException
    ensures response.Status() == StatusOk <==> UserUrl(id) in service.users
  {
    var user := service.GetUser(id);
    match user
    case Some(u) =>
      response := JsonResponse(StatusOk, UserToJson(u));
    case None =>
      response := UncaughtException;
  }

  /** The response the except block of `api_create_user` means to send: a 500 whose JSON body names the missing field. */
  function FormErrorResponse(missing: string): (r: Response)
    ensures r.Status() == StatusInternalServerError
    ensures r.JsonResponse? && r.body == FormErrorJson(FormErrorMessage, missing)
  {
    JsonResponse(StatusInternalServerError, FormErrorJson(FormErrorMessage, missing))
  }

  /**
   * `jsonify(dict(error=..., exception=ex))` as written: `ex` is the
   * `KeyError` the form lookup raised, an object the JSON encoder cannot
   * serialise, so building the body raises `TypeError`. The encoder is not
   * part of this model: this is an assumption about it, not derived.
   */
  function JsonifyFormErrorAsWritten(missing: string): Outcome<Json> {
    Raised
  }

  /**
   * The except block as written: the `TypeError` from `jsonify` escapes the
   * handler before the status is set, and Flask answers with its bare 500.
   */
  function FormErrorResponseAsWritten(missing: string): (r: Response)
    ensures r.Status() == StatusInternalServerError
    ensures !r.JsonResponse?
  {
    match JsonifyFormErrorAsWritten(missing)
    case Raised => UncaughtException
    case Returned(body) => JsonResponse(StatusInternalServerError, body)
  }

  /**
   * As written, a form without `name` or `email` gets the same status as
   * intended but never the error body: it is an uncaught exception.
   */
  lemma FormErrorBodyNeverSentAsWritten(form: map<string, string>)
    requires ReadForm(form).Failure?
    ensures FormErrorResponseAsWritten(ReadForm(form).error) == UncaughtException
    ensures FormErrorResponse(ReadForm(form).error) != FormErrorResponseAsWritten(ReadForm(form).error)
    ensures FormErrorResponse(ReadForm(form).error).Status() == FormErrorResponseAsWritten(ReadForm(form).error).Status()
  {
  }

  /** The input that shows it: a form holding only `name`. */
  lemma MissingEmailAsWritten()
    ensures ReadForm(map["name" := "A"]) == Failure("email")
    ensures FormErrorResponseAsWritten("email") == UncaughtException
    ensures FormErrorResponse("email") == JsonResponse(500, FormErrorJson("Error getting name or email", "email"))
  {
  }

  /**
   * `POST /`: on a form lacking `name` or `email`, a 500 with an error body
   * and no user created; otherwise create the user and redirect to its page.
   */
  method ApiCreateUser(service: UserService, form: map<string, string>) returns (response: Response)
    requires service.Valid()
    modifies service
    ensures service.Valid()
    ensures ReadForm(form).Failure? ==>
      && response == FormErrorResponse(ReadForm(form).error)
      && service.State() == old(service.State())
    ensures ReadForm(form).Success? ==>
      var (name, email) := ReadForm(form).value;
      var (store, id) := Create(old(service.State()), name, email);
      && service.State() == store
      && response == Redirect(StatusFound, Href(id))
      && RouteUserId(response.location) == Some(id)
  {
    match ReadForm(form)
    case Failure(missing) =>
      response := FormErrorResponse(missing);
    case Success((name, email)) =>
      var id := service.CreateUser(name, email);
      HrefRoutesBack(id);
      response := Redirect(StatusFound, Href(id));
  }

  /** `DELETE /<id>`: whatever `delete_user` returned, as JSON with status 200. */
  method ApiDeleteUser(service: UserService, id: int) returns (response: Response)
    requires service.Valid()
    modifies service
    ensures service.Valid()
    ensures var (store, result) := Delete(old(service.State()), id);
      && service.State() == store
      && response == JsonResponse(StatusOk, DeleteResultToJson(result))
  {
    var result := service.DeleteUser(id);
    response := JsonResponse(StatusOk, DeleteResultToJson(result));
  }

  /** An index that covers exactly users 1 and 3 is the two links, in order. */
  lemma IndexOfOneAndThree(s: Store, links: seq<Link>)
    requires s.users.Keys == {UserUrl(1), UserUrl(3)}
    requires |links| == |s.users|
    requires forall a, b :: 0 <= a < b < |links| ==> links[a].id < links[b].id
    requires forall t :: 0 <= t < |links| ==> Get(s, links[t].id).Some?
    requires forall t :: 0 <= t < |links| ==> links[t].href == Href(links[t].id)
    ensures links == [Link(1, "/1"), Link(3, "/3")]
  {
    UserUrlInjective(1, 3);
    assert |s.users| == |s.users.Keys| == 2;
    forall t | 0 <= t < 2 ensures links[t].id == 1 || links[t].id == 3 {
      UserUrlInjective(links[t].id, 1);
      UserUrlInjective(links[t].id, 3);
    }
    assert links[0].id < links[1].id;
    assert links[0].id == 1 && links[1].id == 3;
    assert Href(1) == "/1" && Href(3) == "/3";
  }

  /**
   * Two of `Create`'s postconditions, restated on their own so that
   * `ThreeCreatesOneDelete` stays within the resource limit on every seed.
   */
  lemma CreateStep(s: Store, t: Store, id: int, name: string, email: string)
    requires (t, id) == Create(s, name, email)
    ensures id == s.idGen + 1 && t.idGen == id
    ensures t.users.Keys == s.users.Keys + {UserUrl(id)}
  {
  }

  /** Three creates on an empty backend and the delete of the second leave the keys of ids 1 and 3. */
  lemma ThreeCreatesOneDelete(s0: Store, s1: Store, s2: Store, s3: Store, s4: Store, id1: int, id2: int, id3: int)
    requires s0 == Store(map[], 0)
    requires (s1, id1) == Create(s0, "A", "a@x.com")
    requires (s2, id2) == Create(s1, "B", "b@x.com")
    requires (s3, id3) == Create(s2, "C", "c@x.com")
    requires s4 == Delete(s3, id2).0
    ensures s4.users.Keys == {UserUrl(1), UserUrl(3)}
  {
    CreateStep(s0, s1, id1, "A", "a@x.com");
    CreateStep(s1, s2, id2, "B", "b@x.com");
    CreateStep(s2, s3, id3, "C", "c@x.com");
    assert s3.users.Keys == {UserUrl(1), UserUrl(2), UserUrl(3)};
    UserUrlInjective(1, 2);
    UserUrlInjective(2, 3);
  }

  /** Create three users on an empty backend, then delete the second. */
  method ThreeUsersDeleteSecond() returns (service: UserService)
    ensures fresh(service) && service.Valid()
    ensures service.users.Keys == {UserUrl(1), UserUrl(3)}
  {
    service := new UserService(map[], 0);
    ghost var s0 := service.State();
    var id1 := service.CreateUser("A", "a@x.com");
    ghost var s1 := service.State();
    var id2 := service.CreateUser("B", "b@x.com");
    ghost var s2 := service.State();
    var id3 := service.CreateUser("C", "c@x.com");
    ghost var s3 := service.State();
    var deleted := service.DeleteUser(id2);
    ThreeCreatesOneDelete(s0, s1, s2, s3, service.State(), id1, id2, id3);
  }

  /**
   * Create three users on an empty backend, delete the second, list: the
   * index holds ids 1 and 3, ascending, with their pages.
   */
  method ListAfterDeleteScenario() returns (response: Response)
    ensures response == JsonResponse(StatusOk, IndexJson([Link(1, "/1"), Link(3, "/3")]))
  {
    var service := ThreeUsersDeleteSecond();
    response := ApiIndex(service);
    IndexOfOneAndThree(service.State(), response.body.users);
  }
}
