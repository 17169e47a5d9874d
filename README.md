# Warehouse locations: in-memory store, login, movements and table filter

This project models the logic of a small warehouse-location tracker: its
in-memory stand-in for the database, the login decision, the movement
handler and the search filter of the locations table. Each part is proved
against a specification.

- `location_store.dfy` (module `LocationStore`) models `lib/db.ts`. The
  class `Store` holds the mutable locations list. `Store.Query` is the
  statement dispatcher. It tries its branches in the source's order: user
  lookup, select all locations, append, replace the first match, remove
  every match, and otherwise an empty result. `GetLocations`,
  `GetLocationById`, `CreateLocation`, `UpdateLocation` and `DeleteLocation`
  are the wrappers. Each SQL text the application issues is a `Statement`
  constructor. `Keywords` lists which dispatcher substrings that text
  contains. A ghost field `received` records the statements in the order
  they reach the store.
- `login_route.dfy` (module `LoginRoute`) models the `POST` login handler.
  `Login` is a pure function of the request body, the lookup result (rows,
  or a thrown database error) and the time. `Authenticate` runs it against
  the store.
- `movement_route.dfy` (module `MovementRoute`) models the `POST` movement
  handler as a method on the store. `Record` checks the three fields, then
  issues the update and the movement-log insert, in that order.
- `locations_table.dfy` (module `LocationsTable`) models the filter
  expression, the local removal after a delete, and what the table card
  shows.
- `js_values.dfy` holds the shared value type (`undefined` or a string,
  with JavaScript truthiness) and a subsequence predicate.

The model follows the code where the intended design differs from it:
- Ids are not unique: INSERT appends without any check.
- Sizes and statuses are free text. The seed sizes are "PEQUEÑO",
  "MEDIANO" and "GRANDE".
- UPDATE and DELETE report one affected row even when nothing matched.
- Listing returns insertion order; the `ORDER BY id DESC` has no effect.
- The two writes of a movement are independent statements. As written,
  neither changes any stored row whose id is defined.

## Model

| member | source | states |
|---|---|---|
| `LocationStore.BranchOf` | lib/db.ts:44-79 | Which branch each statement reaches, trying the keyword tests in the dispatcher's order. Only the users lookup reaches the user branch. Both location selects reach "select all". Both updates reach "replace first". The movement-log insert reaches no branch. |
| `LocationStore.UsersNamed` | lib/db.ts:44-47 | The lookup keeps exactly the users whose username equals the argument, compared case-sensitively, in their original order, each as often as it occurs. |
| `LocationStore.SeedUserLookup` | lib/db.ts:31 | With the seed users, "ilde" finds the single seed row and "Ilde" finds nothing. |
| `LocationStore.IndexOfId` | lib/db.ts:66 | The position of the first row carrying the id, or -1 exactly when no row carries it. |
| `LocationStore.Store.FindIndex` | lib/db.ts:66 | The scan over the list stops at the first matching row, or gives -1. |
| `LocationStore.Without` | lib/db.ts:75 | DELETE's filter leaves no row with the id. It keeps every other row, in order, as a subsequence, each as often as it occurs. Its length drops by the number of rows that carried the id. |
| `LocationStore.FirstOrNull` | lib/db.ts:93 | Null exactly on an empty list, otherwise the list's first row. |
| `LocationStore.Store.constructor` | lib/db.ts:33-37 | The store starts with the three seed locations and has received no statement. |
| `LocationStore.Store.Query` | lib/db.ts:41-84 | Per branch: the user rows; the whole list, unchanged; the row appended, with `insertId` equal to the id; the first match replaced, with one affected row; every match removed, with one affected row; or `[]` with nothing changed. Every call is recorded in `received`. |
| `LocationStore.Store.GetLocations` | lib/db.ts:86-89 | Returns the list in insertion order and changes nothing. |
| `LocationStore.Store.GetLocationById` | lib/db.ts:91-94 | Returns the first stored row whatever id is asked for, or null on an empty list. Changes nothing. |
| `LocationStore.Store.CreateLocation` | lib/db.ts:96-103 | Appends `{id, size, status}` verbatim after all earlier rows and returns `insertId == id`. |
| `LocationStore.Store.UpdateLocation` | lib/db.ts:105-108 | Binds `[size, status, id]` and replaces the first row with that id. Reports one affected row in every case. |
| `LocationStore.Store.DeleteLocation` | lib/db.ts:110-113 | Removes every row with that id and reports one affected row in every case. |
| `LocationStore.InsertTwiceDuplicates` | lib/db.ts:53-61 | Inserting the same location twice adds two rows with its id, so ids are no longer unique. |
| `LocationStore.InsertKeepsUniqueIds` | lib/db.ts:53-61 | Appending to a list with unique ids keeps them unique exactly when the new id is absent. |
| `LocationStore.Replaced` | lib/db.ts:66-68 | UPDATE keeps the length. It changes only the first row carrying the id, which becomes the new row. With no such row the list is unchanged. |
| `LocationStore.ReplacedUnknownId` | lib/db.ts:66-70 | UPDATE of an id no row carries leaves the list unchanged. |
| `LocationStore.ReplacedKeepsUniqueIds` | lib/db.ts:64-69 | UPDATE keeps unique ids unique. |
| `LocationStore.WithoutAbsent` | lib/db.ts:73-77 | DELETE of an id no row carries changes nothing. |
| `LocationStore.WithoutIdempotent` | lib/db.ts:73-77 | A second DELETE of the same id changes nothing. |
| `LocationStore.WithoutKeepsUniqueIds` | lib/db.ts:75 | DELETE keeps unique ids unique. |
| `LocationStore.GetByIdIgnoresId` | lib/db.ts:91-94 | On the seed list, asking for "U010103A1" returns the "U010101A1" row rather than the row asked for. |
| `LocationStore.LookupId` | lib/db.ts:91-94 | Corrected lookup: a row is found exactly when some row carries the id, and the row found is the first row that carries it. |
| `LocationStore.CreateThenLookup` | lib/db.ts:96-103 | Corrected lookup: a location created with a fresh id is found again, equal in all fields. |
| `LocationStore.UpdateThenLookup` | lib/db.ts:105-108 | Corrected lookup: after an update of a present id, the lookup finds the new row. |
| `LocationStore.DeleteThenLookup` | lib/db.ts:110-113 | Corrected lookup: after a delete, the lookup finds nothing. |
| `LoginRoute.Login` | app/api/auth/login/route.ts:4-63 | An unreadable body gives 500. A missing or empty field gives 400, and only then. Every credential failure gives the same 401 message. With rows, success happens exactly when the first row's password equals the given one. The summary carries the stored id and username; name and role are never empty: an empty stored name becomes "Usuario", an empty stored role becomes "user", and otherwise the stored values are kept. On a database error, exactly "ilde"/"8019" succeeds, with the fixed admin summary. |
| `LoginRoute.Authenticate` | app/api/auth/login/route.ts:9-39 | Against the store, the users lookup is issued only when both fields are present. It changes no location, and its rows decide the response. |
| `LoginRoute.ValidationIgnoresLookup` | app/api/auth/login/route.ts:9-11 | Before validation passes, the lookup result plays no part, and the answer is 400 or 500. |
| `LoginRoute.UnknownUserLikeWrongPassword` | app/api/auth/login/route.ts:16-25 | An unknown user and a wrong password get the identical 401 response. |
| `LoginRoute.SeedLogin` | app/api/auth/login/route.ts:14-38 | With the seed users, a login succeeds exactly for "ilde"/"8019", as the admin "Ilde Núñez". |
| `LoginRoute.FallbackAgreesWithSeed` | app/api/auth/login/route.ts:40-57 | The database-error fallback and the seed users accept the same credentials and give the same summary and failures. Only the token subject differs: id 1 against the name "ilde". |
| `MovementRoute.Record` | app/api/movement/route.ts:4-33 | An unreadable body gives 500. A missing field gives 400 with no statement issued. Otherwise the update is issued before the log insert and success is returned, with no check on status values or location existence. The update replaces the first row with an undefined id, so a list whose ids are all defined is unchanged. |
| `MovementRoute.MisboundRow` | app/api/movement/route.ts:13-16 | The update's parameters land in the store's size and status slots, and its id is undefined (lib/db.ts:65). So it replaces nothing in a list whose ids are all defined. |
| `MovementRoute.SeedMovementChangesNothing` | app/api/movement/route.ts:13-16 | Recording "FULL" for "U010101A1" on the seed list leaves the list as it was, with that location still "EMPTY". |
| `MovementRoute.SetStatus` | app/api/movement/route.ts:12-16 | Corrected update: only the first row with the code changes, and only its status. The length is kept, and an unknown code leaves the list unchanged. |
| `MovementRoute.SetStatusFound` | app/api/movement/route.ts:12-16 | Corrected update: the location with that code is found with the new status, and its other fields are kept. |
| `MovementRoute.IntendedRecord` | app/api/movement/route.ts:12-23 | Corrected movement: the log gains exactly the one entry. Ids, sizes and length are kept, and every row other than the first with the code is unchanged. An unknown code leaves the list unchanged. A present location then carries the recorded status. |
| `MovementRoute.IntendedTwoMovements` | app/api/movement/route.ts:12-23 | Corrected movement: two movements for one location leave two log entries, with the location at the second status. |
| `MovementRoute.IntendedScenario` | app/api/movement/route.ts:12-23 | Corrected movement: create "U010101A1", then record "FULL" from cart "C1". The lookup shows "FULL" and the log holds exactly that movement. |
| `LocationsTable.Includes` | components/locations-table.tsx:50 | `includes`: true exactly when the needle occurs at some position of the text. |
| `LocationsTable.Matches` | components/locations-table.tsx:50 | The lower-cased code contains the lower-cased filter. An empty filter matches every location, and a filter longer than the code matches none. |
| `LocationsTable.Filtered` | components/locations-table.tsx:50 | Keeps exactly the locations whose lower-cased code contains the lower-cased filter. Each matching row is kept as often as it occurs, and the rest are dropped. The result is a subsequence in the original order, never longer than the input. |
| `LocationsTable.EmptyFilterKeepsAll` | components/locations-table.tsx:50 | An empty filter keeps every location. |
| `LocationsTable.FilterIgnoresCase` | components/locations-table.tsx:50 | Filters that differ only in letter case give the same list. |
| `LocationsTable.AfterDelete` | components/locations-table.tsx:43 | After a delete, the local list has no location with that code and keeps every other one, in order, each as often as it occurs. Its length drops by the number of locations with that code. |
| `LocationsTable.Render` | components/locations-table.tsx:96-124 | The loading card shows exactly while loading. Otherwise the count is the length of the filtered list. The rows shown are that list. The "No se encontraron huecos" row shows exactly when no location matches the filter, which is exactly when the count is 0. |

## Findings

| source | as written | input that shows it | evidently intended | confidence | as-written member | corrected member |
|---|---|---|---|---|---|---|
| lib/db.ts:91-94 | `getLocationById` runs a select that the in-memory store answers with the whole list, then returns its first row. The requested id is ignored. | Seed list, id "U010103A1": the "U010101A1" row is returned. | The row carrying the requested id, or null. | high; not executed | `LocationStore.GetByIdIgnoresId` | `LocationStore.LookupId` |
| app/api/movement/route.ts:13-16 | The update passes `[status, location_code]`, but the store's update branch reads `[size, status, id]`. The id is therefore `undefined` (`MovementRoute.MisboundRow`), and no row with a defined id changes. | Seed list, movement "C1", "U010101A1", "FULL": the location stays "EMPTY". | The location with that code takes the recorded status, and one movement-log entry is appended. | medium; not executed | `MovementRoute.SeedMovementChangesNothing` | `MovementRoute.IntendedRecord` |

The handlers (`Store.GetLocationById`, `MovementRoute.Record`) keep the
behaviour as written. The corrected definitions carry the intended
round-trip and scenario properties.

## Left out

- The MySQL pool setup in lib/db.ts is left out, because it is never called and depends on a foreign driver and environment variables. So are real SQL semantics (`WHERE`, `ORDER BY`, `updated_at`, `NOW()`).
- `LocationStore.Keywords`: statement texts are a datatype, not strings. Which dispatcher substrings each text contains is stated as a table and not derived from the text.
- `LocationStore.Store.Query`: the select branch returns the live list in the source. A caller holding it would see later appends and later updates, which change that list in place, but not later deletes, which reassign the list. The model returns a value, so this aliasing is not modelled.
- `LocationStore.Store.Query`: the rethrow in `query`'s catch is not modelled, because no in-memory branch throws.
- Field values are only `undefined` or strings. Numbers, `null` and objects in request bodies are not modelled. The location routes that pass `Number.parseInt(id)` to the wrappers are not part of this model.
- `LoginRoute.Login`: the token is a subject and an issue time. Its base64 encoding and `Date.now()` are external, so the time is a parameter.
- `LoginRoute.Authenticate`: with the in-memory store the lookup never throws. The database-error branch is reached only through `Login`'s lookup parameter.
- HTTP and JSON plumbing, `async`/`await` and console logging are left out. Responses are datatypes holding a status and a payload, and calls run in sequence.
- `MovementRoute.Record`: the unused update result is not modelled.
- `LocationsTable.Filtered`: lower-casing covers ASCII letters only; full Unicode `toLowerCase` is not modelled.
- The React state setters, effects, `fetch`, `confirm` and all rendering other than the card's count and body are left out. So are the other pages and components and the `localStorage` helpers in lib/auth.ts.
