# NavigationDemo client stub, modelled and verified in Dafny

NavigationDemo is a small SwiftUI demonstration app. Its only logic outside
the views is `ClientStub`, a stub remote service that simulates a login and
a data fetch with artificial delays and placeholder data, and the two
entities it serves, `ServerRecord` and `RecordDetail`. This project models
that logic and proves what it does:

- `ClientStub` holds `isLoggedIn`, the in-flight counter `fetchCount` and
  `records`.
  - `fetchDataSets()` brackets its work with `startFetch`/`endFetch`.
    It generates four placeholder records, sleeps, and then replaces
    `records` with them.
  - `login()` brackets a sleep, sets `isLoggedIn` and runs a nested
    `fetchDataSets()`.
  - `logout()` clears the login flag and the records.
  - The deferred `endFetch` runs whether the sleep resumes or throws.
- A `ServerRecord` has an id, a name and an ordered list of details. It
  appends to that list in place (`insert(detail:)`, `addDetail()`).
- A `RecordDetail` has an id, a count and a description.
- Both entities are equal exactly when their ids match, and equal entities
  hash alike.

Modules, one per component:

- `Ids` (ids.dfy): `Uuid` and `IdSource`. `IdSource` stands in for `UUID()`:
  it hands out tokens and never hands out one twice.
- `Entities` (entities.dfy): `RecordDetail` (a datatype) and `ServerRecord`
  (a class whose `details` field is updated in place). It also has
  functions for the contents and ids of records, and lemmas about `==`.
- `Placeholder` (placeholder.dfy): what one fetch generates, as a function
  of the random draws, with lemmas about its exact shape. Also the decimal
  rendering used by string interpolation.
- `Session` (session.dfy): the client's state as a value, and every
  operation as a function on it. It also proves the counter bracket, the
  wholesale replacement of `records`, what login and logout do, and
  idempotent logout.
- `Client` (client.dfy): the `ClientStub` class. It has mutable fields and
  imperative methods with the generation loops. Every method is proved to
  change the state exactly as the matching `Session` function says.

Inputs that stand for what the program cannot see:

- `Task.sleep` is a `Session.Outcome` parameter: `Completed` when the
  suspension resumes, `Cancelled` when it throws the cancellation error.
- `Int.random` is a `Placeholder.Draw` per record. It holds the drawn
  exclusive bound `upper` of the detail loop `1..<upper` and one drawn count
  per detail. `ValidDraw` requires `upper` in 2..5, exactly `upper - 1`
  counts, and every count in 0..10: the ranges `2..<6` and `0..<11`.
- `UUID()` is an `Ids.IdSource` parameter. `IdSource` is a counter chosen
  as the stand-in: `Fresh` hands out the tokens `0, 1, 2, ...` in order.
  Any source that never repeats a token would do for the program. The proofs
  that ids are distinct (`Client.Consecutive`, `Client.IssuedBetween`) use
  this counter shape: a run of `Fresh` calls gives consecutive tokens.

`countHistory` is a ghost field of `ClientStub` and a field of
`Session.State`. It lists every value `fetchCount` takes, in order. It is
there only to state how the counter moves during a call. For example, during
a login it rises to two above its start value.

`login()`'s `endFetch` is deferred to the end of `login()`, so it runs after
the nested fetch finishes, and the two brackets nest: a completed login takes
`fetchCount` through `c+1, c+2, c+1, c` (`Session.LoginCounts`).

## Model

| member | source | states |
|---|---|---|
| `Ids.IdSource.Fresh` | NavigationDemo/ClientStub.swift:92 | `UUID()`: the returned id was never issued before, is issued now, and every earlier id stays issued |
| `Entities.NewRecordDetail` | NavigationDemo/ClientStub.swift:125-129 | `RecordDetail(count:description:)` keeps the given count and description and gets a fresh id |
| `Entities.DetailEqualsIsIdentity` | NavigationDemo/ClientStub.swift:132-140 | two details are `==` exactly when their ids match, whatever their count and description; equal details hash alike |
| `Entities.DetailEqualsIsEquivalence` | NavigationDemo/ClientStub.swift:133-135 | detail `==` is reflexive, symmetric and transitive |
| `Entities.ServerRecord.constructor` | NavigationDemo/ClientStub.swift:91-95 | `init(named:)`: the given name, no details, and an id never issued before |
| `Entities.ServerRecord.AddDetail` | NavigationDemo/ClientStub.swift:98-101 | appends one detail with count 0, description "Default description" and a fresh id; the earlier details and the name are unchanged |
| `Entities.ServerRecord.Insert` | NavigationDemo/ClientStub.swift:105-107 | `details` becomes the old details followed by exactly the given detail; the name is unchanged (the id cannot change) |
| `Entities.RecordDetail.Equals` | NavigationDemo/ClientStub.swift:133-135 | the detail `==`: ids compared, nothing else. Its properties are in `DetailEqualsIsIdentity` and `DetailEqualsIsEquivalence` |
| `Entities.RecordDetail.Hash` | NavigationDemo/ClientStub.swift:137-139 | what a detail's `hash(into:)` feeds the hasher: the id alone. `DetailEqualsIsIdentity` proves equal details hash alike |
| `Entities.ServerRecord.Equals` | NavigationDemo/ClientStub.swift:115-117 | the record `==`: ids compared, nothing else. Its properties are in `RecordEqualsIsIdentity` |
| `Entities.ServerRecord.Hash` | NavigationDemo/ClientStub.swift:111-113 | what a record's `hash(into:)` feeds the hasher: the id alone. `RecordEqualsIsIdentity` proves equal records hash alike |
| `Entities.RecordEqualsIsIdentity` | NavigationDemo/ClientStub.swift:110-118 | records are `==` exactly when their ids match, whatever their names and details; `==` is an equivalence and equal records hash alike |
| `Entities.DistinctIdsUnequal` | NavigationDemo/ClientStub.swift:115-117 | if every id in a record list is distinct, no two records are `==`, and no two details of one record are `==` |
| `Entities.ContentsAt` | NavigationDemo/ClientStub.swift:15 | the contents of `records` are those of its records, position by position. It supports the abstraction of `records` and is used by `Client.GeneratedRecordAt` |
| `Entities.DetailContentsAt` | NavigationDemo/ClientStub.swift:89 | the contents of `details` are those of its details, position by position. It supports the abstraction of `details` and is used by `Client.GeneratedRecordAt` |
| `Placeholder.ValidDraw` | NavigationDemo/ClientStub.swift:46-47 | the draws `Int.random` can give one record: the loop bound `upper` in `2..<6`, so 2 to 5; exactly `upper - 1` counts, one per pass of `1..<upper`; each count in `0..<11`, so 0 to 10 |
| `Placeholder.ValidDraws` | NavigationDemo/ClientStub.swift:44-47 | one valid draw for each of the 4 passes of the loop `1..<5` |
| `Placeholder.Decimal` | NavigationDemo/ClientStub.swift:45-48 | how `\(n)` writes a non-negative `Int`: its decimal digits, most significant first, with no leading zeros. `DecimalInjective` proves that different numbers give different text |
| `Placeholder.RecordName` | NavigationDemo/ClientStub.swift:45 | the name `"Record \(count)"`: "Record " followed by the decimal text of `count`. `NamesInjective` and `PlaceholderNames` are about it |
| `Placeholder.DetailDescription` | NavigationDemo/ClientStub.swift:48 | the description `"Detail number \(detailCount)"`: "Detail number " followed by the decimal text of `detailCount`. `NamesInjective` is about it |
| `Placeholder.DecimalInjective` | NavigationDemo/ClientStub.swift:45-48 | the decimal text that interpolation gives a number determines the number |
| `Placeholder.NamesInjective` | NavigationDemo/ClientStub.swift:45-48 | "Record n" names and "Detail number k" descriptions of different numbers differ |
| `Placeholder.DetailsUpToAt` | NavigationDemo/ClientStub.swift:46-48 | after k passes of the detail loop there are k details, and detail j has the j-th drawn count and the description "Detail number j+1" |
| `Placeholder.RecordsUpToAt` | NavigationDemo/ClientStub.swift:44-51 | after k passes of the record loop there are k records, and record i is named "Record i+1" with the details generated from the i-th draw |
| `Placeholder.PlaceholderDetails` | NavigationDemo/ClientStub.swift:46-48 | reference definition of the details the inner loop gives one record for a draw. `PlaceholderShape` gives its closed form, and `Client.MakeRecord` is proved to build it |
| `Placeholder.PlaceholderRecords` | NavigationDemo/ClientStub.swift:42-51 | reference definition of the record contents the generation loops give for the draws. `PlaceholderShape` gives its closed form, and `Client.GenerateRecords` is proved to build it |
| `Placeholder.PlaceholderShape` | NavigationDemo/ClientStub.swift:42-51 | a fetch generates exactly 4 records. Record i is named after i+1 and has `upper-1` details, so 1 to 4. Detail j has the drawn count, which is in 0..10, and the description "Detail number j+1" |
| `Placeholder.PlaceholderNames` | NavigationDemo/ClientStub.swift:44-45 | the generated names are "Record 1", "Record 2", "Record 3", "Record 4", in that order |
| `Placeholder.PlaceholderNamesDistinct` | NavigationDemo/ClientStub.swift:44-48 | no two generated records share a name; no two details of one record share a description |
| `Session.StartFetch` | NavigationDemo/ClientStub.swift:17-22 | reference definition of `startFetch()`: `fetchCount` one higher, the new value appended to the history. `Client.ClientStub.StartFetch` is proved to follow it; the bracket is proved in `FetchBehaviour` and `LoginCounts` |
| `Session.EndFetch` | NavigationDemo/ClientStub.swift:24-29 | reference definition of `endFetch()`: `fetchCount` one lower, the new value appended to the history. `Client.ClientStub.EndFetch` is proved to follow it |
| `Session.Fetch` | NavigationDemo/ClientStub.swift:35-57 | reference definition of `fetchDataSets()` on the state as a value. `Client.ClientStub.FetchDataSets` is proved to follow it; its properties are `FetchBehaviour` and `FetchCompletedRecords` |
| `Session.Login` | NavigationDemo/ClientStub.swift:62-75 | reference definition of `login()`, with the nested fetch inside the login's bracket. `Client.ClientStub.Login` is proved to follow it; its properties are `LoginCounts`, `LoginBehaviour` and `LoginCompleted` |
| `Session.Logout` | NavigationDemo/ClientStub.swift:79-83 | reference definition of `logout()`. `Client.ClientStub.Logout` is proved to follow it; its properties are in `LogoutBehaviour` |
| `Session.FetchBehaviour` | NavigationDemo/ClientStub.swift:35-57 | a fetch ends as its sleep does. `fetchCount` goes up by one and back on both paths, and `isLoggedIn` is untouched. On completion `records` is exactly the generated list, with no merge; if the sleep throws, `records` is unchanged |
| `Session.FetchCompletedRecords` | NavigationDemo/ClientStub.swift:42-53 | after a completed fetch, `records` has 4 entries named "Record 1" to "Record 4" |
| `Session.LoginCounts` | NavigationDemo/ClientStub.swift:62-75 | a login returns `fetchCount` to its start value. Its history is `c+1, c+2, c+1, c` when its own sleep resumes, and `c+1, c` when that sleep throws |
| `Session.LoginBehaviour` | NavigationDemo/ClientStub.swift:62-75 | a login completes exactly when both sleeps resume. `isLoggedIn` ends true if the login's own sleep resumed and is unchanged otherwise. `records` is the generated list exactly when both sleeps resumed, and unchanged otherwise |
| `Session.LoginCompleted` | NavigationDemo/ClientStub.swift:62-75 | right after a completed login, `isLoggedIn` holds and there are 4 records |
| `Session.LogoutBehaviour` | NavigationDemo/ClientStub.swift:79-83 | logout clears `isLoggedIn` and `records`, leaves `fetchCount` and its history alone, and applying it twice equals applying it once |
| `Session.NonNegativePreserved` | NavigationDemo/ClientStub.swift:17-29 | when `fetchCount` starts non-negative, no fetch, login or logout makes it negative at any point |
| `Session.LoginLogoutScenario` | NavigationDemo/ClientStub.swift:62-83 | from a new client, a completed login passes through counts 1, 2, 1, 0 and ends logged in with the 4 generated records; a logout then gives logged out, count 0, no records |
| `Client.MakeRecord` | NavigationDemo/ClientStub.swift:45-49 | one pass of the record loop builds a new record whose content is the named record with its generated details, with consecutive fresh ids |
| `Client.AppendRecord` | NavigationDemo/ClientStub.swift:44-50 | one pass of the record loop appends one new record to `fetchedRecords`, whose earlier entries stay as they were; the list then holds exactly the first `count` generated records, each object either already there or new, and the ids stay consecutive fresh tokens |
| `Client.GenerateRecords` | NavigationDemo/ClientStub.swift:42-51 | the generation loop returns new record objects whose contents are exactly the generated list, using fresh ids |
| `Client.GeneratedRecordAt` | NavigationDemo/ClientStub.swift:42-51 | read object by object, records holding the generated contents are 4. Record `i` is named "Record i+1" and has `upper-1` details, and its detail `j` has the `j`-th drawn count and "Detail number j+1" |
| `Client.ClientStub.State` | NavigationDemo/ClientStub.swift:13-15 | the abstraction of the client's fields as a `Session.State`: `isLoggedIn`, `fetchCount`, the contents of the `records` objects, and the ghost counter history. Every method of the class is specified through it |
| `Client.ClientStub.constructor` | NavigationDemo/ClientStub.swift:13-15 | a new client is logged out, with `fetchCount` 0 and no records |
| `Client.ClientStub.StartFetch` | NavigationDemo/ClientStub.swift:17-22 | `fetchCount` increases by exactly 1; no other program field changes, and the ghost history gains the new value |
| `Client.ClientStub.EndFetch` | NavigationDemo/ClientStub.swift:24-29 | `fetchCount` decreases by exactly 1; no other program field changes, and the ghost history gains the new value |
| `Client.ClientStub.FetchDataSets` | NavigationDemo/ClientStub.swift:35-57 | the new state and the outcome are those of `Session.Fetch`. On completion every record is a new object, the record and detail ids are pairwise distinct and were all issued during the call (`IssuedBetween`), and no two records are `==`; a throw leaves `records` as the same objects. On every outcome every id issued before the call stays issued |
| `Client.ClientStub.Login` | NavigationDemo/ClientStub.swift:62-75 | the new state and the outcome are those of `Session.Login`. On completion the records are new objects whose ids are distinct and issued during the call, as for a fetch; a throw leaves `records` as the same objects. On every outcome every id issued before the call stays issued |
| `Client.ClientStub.Logout` | NavigationDemo/ClientStub.swift:79-83 | the new state is `Session.Logout` of the old one; `records` is emptied in place |

## Left out

- Thread hops and unstructured tasks are not modelled, because they are
  scheduling concerns. The program dispatches the counter updates and
  `isLoggedIn = true` to the main queue, and runs `endFetch` in a new
  unstructured `Task`. Here each of these happens atomically at the point where it is
  issued, in program order.
- `objectWillChange.send()` notifications are left out: they are a framework
  publish mechanism with no state of its own.
- The duration of `Task.sleep` is not modelled; only whether the sleep
  resumes or throws is. `ClientStub.SleepNanos` records the constant.
- `Int.random` and `UUID()` are foreign library calls. They become the
  `draws` and `ids` parameters.
- `Client.ClientStub.FetchDataSets`: the source writes the generation loops
  inline. Here they are the helper methods `GenerateRecords` (outer loop),
  `AppendRecord` (one pass of it) and `MakeRecord` (the record built in that
  pass, with its inner loop), which keep each proof small.
- Ids are distinct only among entities whose ids came from the `IdSource`.
  `init` always calls `UUID()`, so Swift cannot build a detail with a chosen
  id. Dafny's datatype constructor `RecordDetail(id, count, description)`
  can. A detail built that way and passed to `Insert` may share its id with
  one `AddDetail` issues later. Every detail the model itself creates goes
  through `NewRecordDetail`.
- `Entities.RecordDetail` is a value, not an object. No operation changes a
  detail after it is created, so reference aliasing of details cannot be
  observed. The program's `==` on details is `Equals`, not Dafny's `==`.
- `hash(into:)` is modelled as the value it feeds to the hasher (`Hash`, the
  id's token). The hasher itself is library code.
- `fetchCount` is an unbounded integer. The overflow trap of Swift's `Int`
  at `Int.max` cannot be reached by this program and is not modelled.
- NavigationDemo/ContentView.swift and NavigationDemo/NavigationDemoApp.swift
  are SwiftUI views and app wiring, and are not part of this model. This
  includes the `fetchCount > 0` loading test and the printing of a login
  error.
