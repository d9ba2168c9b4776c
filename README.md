# User store and its HTTP handlers, modelled in Dafny

This project models `demo1`, a small Flask service that keeps users
(`{name, email}`) in a Redis key-value store.

- `UserService` (demo1/services.py) keeps an integer counter at key
  `user_id_gen`. Each user record sits at key `users/<id>`.
  - `create_user` increments the counter and writes the record under the new id.
  - `get_user` reads a record.
  - `delete_user` reads a record, then either deletes it or returns a not-found payload.
  - `get_user_ids` scans the keys that match `users/` plus a wildcard, strips the 6-character prefix and parses the id.
  - `user_url` builds the key of an id.
- The Flask handlers (demo1/app.py) list the users as sorted `{id, href}` links, return one user, create a user from a form (a 500 when a field is missing, a redirect when it succeeds), and delete a user.

Files:

- `wrappers.dfy`: `Option` and `Result`.
- `decimal.dfy`: Python's `'%d' % n` (`IntToDecimal`) and the part of `int(s)` the key layout needs (`ParseInt`), with their round trip.
- `services.dfy`: the backend state as a value `Store` (a map from key to `User`, and the counter). It holds the specification functions `Get`, `Create` and `Delete` and the store invariant `Consistent`. The class `UserService` holds the same state in fields `users` and `idGen`. `CreateUser`, `GetUser` and `DeleteUser` are proved equal to `Create`, `Get` and `Delete`; `CreateUser` and `DeleteUser` change the fields step by step. `GetUserIds` changes nothing and is proved to return every stored id exactly once. Over any sequence of calls, `CreatedIdsAreFresh` proves the ids handed out are fresh.
- `app.dfy`: the handlers as methods over an injected `UserService`, returning a `Response` (status plus JSON body, a redirect, or an uncaught exception).

Choices made where the code leaves something open:

- `get_user` on a missing key calls `json.loads(None)`, which raises. The model's `Get` returns `None` there. `ApiGetUser` answers such a request with `UncaughtException`, a 500, as Flask does for the source. The raising version is kept as `GetAsWritten`.
- `delete_user` as written never reaches its not-found branch, because `get_user` raises first (see Findings). The `else` branch at demo1/services.py:17-18 shows the intended answer for a missing id: the payload `{error: 'no user', id}`. So the model's `Delete` and `UserService.DeleteUser` return it. The code's behaviour is kept as `DeleteAsWritten`.
- The except block of `api_create_user` as written never sends its error body, because `jsonify` cannot serialise the exception object it is given (see Findings). The model's `ApiCreateUser` sends the intended body, `FormErrorResponse`. The code's behaviour is kept as `FormErrorResponseAsWritten`. It rests on one assumption about the JSON encoder, stated as the function `JsonifyFormErrorAsWritten`, which raises on every input. The encoder is not part of this model, so the lemmas about the as-written response follow from that assumption and do not prove it.
- The store invariant `Consistent` says that every user key is the canonical `user_url` of an id between 1 and the counter. With it, `get_user_ids` never meets a key that `int()` rejects, and every listed id can be read back with `get_user`.
- `get_user_ids` builds a list (demo1/services.py:32-37), one entry per matching key, in the order the scan yields them. The model returns a list too, in an unspecified order, and proves it has no duplicates and holds exactly the stored ids.

## Model

| member | source | states |
|---|---|---|
| `Decimal.NatToDecimal` | demo1/services.py:41 | the `%d` text of a natural number is a non-empty run of digits with no leading zero |
| `Decimal.NatRoundTrip` | demo1/services.py:35-41 | parsing the digits `%d` writes for a natural number gives that number back |
| `Decimal.IntRoundTrip` | demo1/services.py:35-41 | `int()` of the `%d` text of any integer, negative ones included, gives that integer back |
| `Decimal.IntToDecimal` | demo1/services.py:41 | the `%d` text of an integer is non-empty; it starts with `-` exactly when the integer is negative, and the rest is digits |
| `Decimal.ParseInt` | demo1/services.py:36 | `int()` accepts only a non-empty text that is digits or starts with `-`; a negative result comes only from a leading `-`, and a text without one gives a non-negative result |
| `Services.MatchesUserPattern` | demo1/services.py:34 | a key matches the scan pattern `users/` plus a wildcard exactly when its first 6 characters are `users/` |
| `Services.IdOfKey` | demo1/services.py:35-36 | an id is parsed only from a key longer than the 6-character prefix |
| `Services.UserUrl` | demo1/services.py:34-41 | the key of an id matches the scan pattern `users/` plus a wildcard; stripping its first 6 characters and parsing gives the id back |
| `Services.UserUrlInjective` | demo1/services.py:39-41 | two ids have the same key exactly when they are equal |
| `Services.IdGenKeyIsNotAUserKey` | demo1/services.py:26-34 | the counter key `user_id_gen` is not matched by the user scan and is not the key of any id |
| `Services.Get` | demo1/services.py:20-21 | a record is found exactly when the key `users/<id>` is present; on a consistent store a found id lies between 1 and the counter |
| `Services.Create` | demo1/services.py:23-29 | the returned id is the old counter plus one and becomes the new counter; reading that id gives the given name and email; the key set grows by that id's key only; every other key and every other id reads as before; on a consistent store the key was unused before and the store stays consistent |
| `Services.Delete` | demo1/services.py:12-18 | the counter is unchanged; afterwards the id reads as absent; exactly the id's key is removed and every other id reads as before; a present record is returned as it was; on an absent id the result is `{error: 'no user', id}` and the store is untouched; consistency is kept |
| `Services.CreatedIdsAreFresh` | demo1/services.py:23-29 | across any sequence of create, get, delete and list calls, the k-th created id is the initial counter plus k. So the ids strictly increase, are pairwise distinct, and are never an id the store already held, deletions notwithstanding. The counter ends up advanced by the number of creates, and consistency is kept |
| `Services.GetAsWritten` | demo1/services.py:20-21 | `get_user` as written raises exactly when the key is absent; otherwise it returns the stored record |
| `Services.DeleteAsWritten` | demo1/services.py:12-21 | as written, `delete_user` raises exactly when the id has no record; otherwise it returns the stored record and leaves the counter unchanged |
| `Services.NotFoundBranchUnreachableAsWritten` | demo1/services.py:12-21 | as written, `delete_user` agrees with `Delete` on a present id and raises on an absent one, so it never returns the not-found payload |
| `Services.DeleteMissingRaisesAsWritten` | demo1/services.py:12-21 | on an empty store, deleting id 7 raises as written, whereas `Delete` returns `{error: 'no user', id: 7}` |
| `Services.UserService.constructor` | demo1/services.py:7-10 | a connection to a backend whose content satisfies the store invariant holds exactly that content |
| `Services.UserService.CreateUser` | demo1/services.py:23-29 | INCR the counter, then SET the record: the resulting state and id are those of `Create`, and the invariant is kept |
| `Services.UserService.GetUser` | demo1/services.py:20-21 | returns the record at `users/<id>`, or none exactly when that key is absent |
| `Services.UserService.DeleteUser` | demo1/services.py:12-18 | read, then delete or report not found: the resulting state and result are those of `Delete`, and the invariant is kept |
| `Services.UserService.GetUserIds` | demo1/services.py:31-37 | the scan returns as many ids as there are records, each of them stored, every stored id among them, none twice |
| `Services.ScanStep` | demo1/services.py:34-36 | one step of the scan keeps what the loop promises: the ids of the keys scanned so far, each once |
| `App.ReadForm` | demo1/app.py:48-51 | succeeds exactly when the form has both `name` and `email`, with their values; otherwise it names the first field missing, `name` before `email` |
| `App.Href` | demo1/app.py:37 | the page path `'/%d' % id` (also the redirect target at line 56) starts with `/` and is followed by the digits of a non-negative id |
| `App.RouteUserId` | demo1/app.py:41 | the route `/<int:user_id>` matches only a path of `/` and at least one more character, and yields a non-negative id |
| `App.HrefRoutesBack` | demo1/app.py:37-41 | the page path `/<id>` of a non-negative id is matched by the route `/<int:user_id>` with that same id |
| `App.Insert` | demo1/app.py:34 | inserting into a list adds exactly that element |
| `App.InsertKeepsOrder` | demo1/app.py:34 | inserting into an ascending list keeps it ascending |
| `App.Sort` | demo1/app.py:34 | `sorted` returns an ascending permutation of its input |
| `App.SortedDistinctIsStrict` | demo1/app.py:34 | the ascending permutation of a list without duplicates is strictly ascending |
| `App.LinkAll` | demo1/app.py:35-37 | the loop builds one link per id, in the given order, with `href` equal to `/` and the decimal id |
| `App.IndexCoversStore` | demo1/app.py:34-37 | the links built from the sorted listing are one per stored user, in strictly ascending id order, each for a stored id with its page as `href`, and every stored id has a link |
| `App.ApiIndex` | demo1/app.py:32-38 | `GET /` answers 200 with one link per stored user, in strictly ascending id order, each `href` the user's page, every stored user linked |
| `App.DeleteResultToJson` | demo1/app.py:61-62 | the JSON of a delete result is the record exactly when a record was deleted, and the not-found payload with its error and id otherwise |
| `App.ApiGetUser` | demo1/app.py:41-43 | `GET /<id>` answers 200 with the stored record unchanged when present, and an uncaught exception (500) when absent |
| `App.FormErrorResponse` | demo1/app.py:51-54 | the intended answer to a form lacking a field: status 500 with the JSON body `{error: 'Error getting name or email'}` naming the missing field |
| `App.FormErrorResponseAsWritten` | demo1/app.py:51-54 | as written, the except block answers with status 500 but never with a JSON body, because building the body raises |
| `App.FormErrorBodyNeverSentAsWritten` | demo1/app.py:48-54 | for every form lacking `name` or `email`, the as-written answer is an uncaught exception; it has the intended status but differs from the intended response |
| `App.MissingEmailAsWritten` | demo1/app.py:48-54 | a form holding only `name` lacks `email`; as written the answer is an uncaught exception, whereas the intended one is a 500 with the JSON error body |
| `App.ApiCreateUser` | demo1/app.py:46-56 | a form without `name` or `email` gets the intended `FormErrorResponse` (a 500 with the error body naming the missing field), and the store and counter are unchanged; otherwise exactly one `Create` happens and the answer is a 302 to `/<id>`, a path that routes back to the new id |
| `App.ApiDeleteUser` | demo1/app.py:59-62 | `DELETE /<id>` applies `Delete` and answers 200 with its result unchanged, whether the record or the not-found payload |
| `App.IndexOfOneAndThree` | demo1/app.py:34-37 | an index that satisfies the listing's contract over a store holding users 1 and 3 is exactly `[{id: 1, href: "/1"}, {id: 3, href: "/3"}]` |
| `App.ThreeCreatesOneDelete` | demo1/services.py:12-29 | three creates on an empty store, then deleting the second id, leave exactly the keys `users/1` and `users/3` |
| `App.ThreeUsersDeleteSecond` | demo1/services.py:12-29 | a fresh service driven through three creates and a delete of the second id keeps its invariant and holds exactly the keys `users/1` and `users/3` |
| `App.ListAfterDeleteScenario` | demo1/app.py:32-38 | create three users on an empty backend, delete the second, list: the answer is 200 with the links for ids 1 and 3, in that order |

## Left out

- The Redis client (demo1/services.py:1, 8-10). The model leaves out connection setup, network round trips, backend failures and the atomicity of `INCR` under concurrent requests. The backend is a sequential map plus a counter.
- `Services.Create`: the counter is an unbounded integer. Redis `INCR` works on signed 64-bit values and fails once the counter would pass 2^63-1; that error is not modelled.
- The gap between `INCR` and `SET` in `create_user`. A crash between the two leaks an id, and this is not modelled. The model performs both steps, so ids stay unique either way.
- The JSON library (`simplejson.dumps` / `loads`). The model keeps a user as a typed record, not as bytes. A stored value that is not valid JSON is not modelled.
- Flask routing, `jsonify`, `redirect` and `request.form`. Only their logical effect is modelled: status, body shape and redirect target. `RouteUserId` models only the digits-only match of `<int:user_id>`.
- `App.ReadForm`: the form is a map, so a field sent more than once is not modelled. Flask would take its first value.
- `App.FormErrorResponse`: the source puts the caught exception object in an `exception` field, which cannot be serialised (see Findings). The corrected body records only the name of the missing field that the exception carries.
- `Decimal.ParseInt`: it accepts only an optional `-` followed by digits. Python's `int()` also accepts surrounding whitespace and a `+`. The store invariant excludes such keys, so the scan never meets them.
- `App.Sort`: written as an insertion sort. Only its result, an ascending permutation, stands for Python's `sorted`.
- The `_info` endpoint (demo1/app.py:27-29). It only shows the client's connection settings.
- Logging (demo1/app.py:65-74, demo1/services.py:25, 27), the environment and bootstrap code (demo1/app.py:77-85), and the connection message printed in demo1/services.py:10. These are I/O and setup.
- A 404 for `GET /<id>` on a missing id. The source answers with a 500, and the model keeps that.

## Findings

| source | as written | input that shows it | evidently intended | confidence | as-written member | corrected member |
|---|---|---|---|---|---|---|
| demo1/services.py:12-21 | `delete_user` first calls `get_user`, whose `json.loads(None)` raises on a missing key, so the `else` branch returning `{error: 'no user', id}` is never reached and `DELETE /<id>` of an unknown id ends in a 500 | `delete_user(7)` on an empty store | return `{error: 'no user', id: 7}` with status 200, leaving the store unchanged | high; not executed | `Services.DeleteMissingRaisesAsWritten` | `Services.Delete` |
| demo1/app.py:51-54 | `jsonify(dict(error=..., exception=ex))` is given the `KeyError` object, which the JSON encoder cannot serialise, so `jsonify` raises `TypeError`; the status is never set and Flask answers with a bare 500 without the JSON error body | a `POST /` form holding only `name` | a 500 whose JSON body is `{error: 'Error getting name or email', ...}` naming the missing field | medium (rests on the assumption `App.JsonifyFormErrorAsWritten` that the encoder rejects `ex`); not executed | `App.MissingEmailAsWritten` | `App.FormErrorResponse` |
