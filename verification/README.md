# Asset table, asset routes and route guard of FasilitasBPJS

This project models the part of the office asset tracker that has invariants:

- the asset table (rows keyed by an auto-incremented id, each with a name, an asset
  code `kode_aset`, a floor `lokasi_lantai`, a condition, a status, a quantity
  `jumlah` and a creation time);
- the activity log;
- the two routes that write them. `POST /api/assets` creates a row. `POST /api/assets/move`
  moves part or all of a row's quantity to another floor. It merges into the row of
  the same code there, or creates that row.
- the listing `GET /api/assets`;
- the route guard `middleware.js`, which redirects requests by cookie and path.

Layout, one module per file:

- `wrappers.dfy` (`Wrappers`): `Option`, `Result`.
- `asset_table.dfy` (`AssetTable`): rows, log entries, the table value, its invariant
  `ValidTable`, the `findFirst` lookup, and quantity totals per code.
- `move_route.dfy` (`MoveRoute`): the move route as a function `MoveOp` on the table
  value, with lemmas for each property of a move.
- `assets_route.dfy` (`AssetsRoute`): `CreateOp` and `ListAssets` with their lemmas.
- `ordering.dfy` (`Ordering`): newest-first ordering and `take`.
- `asset_db.dfy` (`AssetStore`): the class `AssetDb`. It holds the table in mutable
  fields. Its `Create` and `Move` methods do the routes' steps in place, and each is
  proved to leave exactly the state that `CreateOp` / `MoveOp` describe.
- `middleware.dfy` (`Middleware`): the guard's decision and its matcher.

Modelling choices:

- Request fields arrive already parsed. A number field is `Option<int>`, and a text
  field is `Option<string>`. JavaScript truthiness is written out: a missing field, `0`
  and `""` are falsy.
- Each route's transaction is atomic. Every check that can throw inside the
  transaction comes before its first write, so a rejection leaves the table, the id
  counter and the log exactly as they were.
- `findFirst` on (code, floor) returns the lowest matching id. Under the table
  invariant at most one row matches, so the choice is immaterial.
- The clock that fills `created_at` and `timestamp` is the parameter `now`.
- Error kinds stand for the HTTP responses. In the move route, `MissingField` and
  `QuantityBelowOne` are the 400 answers. `AssetNotFound`, `NotEnoughUnits` and
  `SameFloor` are thrown inside the transaction and become 500 answers.
- The move route rejects a zero quantity as a missing field, because `0` is falsy. So
  in this model its `qty < 1` check only catches negative quantities. A string `"0"`
  in the real body would be truthy and reach that check instead. "## Left out" lists
  the same effect for every numeric field.

Observations:

- When the whole quantity moves, the source row is deleted before the MOVE entry is
  written (app/api/assets/move/route.js:83-108). That entry still names the deleted
  id. The database schema is not part of this model, so the log is a plain append.
  With a foreign key from the log to the asset table, that insert would fail and the
  whole move-all would roll back.
- The matcher `/((?!_next/static|_next/image|favicon.ico).*)` leaves the dot in
  `favicon.ico` unescaped. So `/faviconXico` also skips the guard and is served
  without a cookie (`Middleware.MatcherDotMatchesAnyCharacter`).

## Model

| member | source | states |
|---|---|---|
| `Middleware.Decide` | middleware.js:3-20 | Redirect to `/login` exactly when there is no cookie and the path is not `/login`, not `/` and does not start with `/api/auth`. Redirect to `/dashboard` exactly when there is a cookie and the path is `/login`. Pass through in every other case. |
| `Middleware.ExcludedAfterSlash` | middleware.js:23 | Text after the slash that starts with `_next/static`, `_next/image` or `favicon.ico` is excluded, and only text of at least 11 characters that starts with `_next` or `favicon` is. |
| `Middleware.MatcherApplies` | middleware.js:22-24 | A matched path starts with `/` and does not start with `/_next/static`, `/_next/image` or `/favicon.ico`. `/login`, `/dashboard` and `/` are always matched. A path holding a line terminator after its slash is never matched, because the pattern's `.*` cannot consume it. |
| `Middleware.LineBreakBypassesGuard` | middleware.js:23 | `/x` + line feed + `b` is not matched, so it passes without a cookie where the guard would have sent it to `/login`. |
| `Middleware.Handle` | middleware.js:3-24 | Paths starting with `/_next/static`, `/_next/image` or `/favicon.ico` always pass through. A request is sent to `/login` exactly when the matcher applies, there is no cookie, and the path is not `/login`, not `/` and not under `/api/auth`. It is sent to `/dashboard` exactly when there is a cookie and the path is `/login`. |
| `Middleware.PublicRoutesNeverSentToLogin` | middleware.js:6-12 | `/` and paths under `/api/auth` are never redirected to `/login`, with or without a cookie. |
| `Middleware.NoSelfRedirect` | middleware.js:10-17 | `/login` is never redirected to `/login`, and the only path ever sent to `/dashboard` is `/login`. |
| `Middleware.RedirectTargetPassesThrough` | middleware.js:9-19 | With the cookie state unchanged, the request that follows either redirect passes through, so there is no redirect loop. |
| `Middleware.ProtectedPathsRequireCookie` | middleware.js:9-19 | A matched path that is neither `/login` nor public is sent to `/login` without a cookie and passes with one. |
| `Middleware.StaticAssetsBypassGuard` | middleware.js:22-24 | Paths that start with `_next/static`, `_next/image` or `favicon.ico` right after the slash pass through, even without a cookie. |
| `Middleware.MatcherDotMatchesAnyCharacter` | middleware.js:23 | `/faviconXico` is also excluded by the matcher, and passes without a cookie where the guard would have sent it to `/login`. |
| `AssetTable.FindFirstFrom` | app/api/assets/move/route.js:52-57 | Within an id range, it returns the lowest id whose row has the code on the floor. If it finds none, no row in the range has them. |
| `AssetTable.FindOnFloor` | app/api/assets/route.js:57-62 | On a valid table, it finds the row with the code on the floor exactly when one exists, and that row is the only one. |
| `AssetTable.CodeTotalChangeAt` | app/api/assets/move/route.js:59-96 | Changing the row at one id changes the total quantity of a code by exactly that row's change. |
| `AssetTable.CodeTotalBelow` | app/api/assets/move/route.js:67-80 | Rows added at or above an id do not change the total quantity below that id. |
| `MoveRoute.MoveOp` | app/api/assets/move/route.js:5-130 | Any rejection leaves the table as it was. The move succeeds exactly when every check of the route passes, and a success appends exactly one log entry. |
| `MoveRoute.AddToTarget` | app/api/assets/move/route.js:51-80 | The target step leaves the log alone and keeps every existing id. It either keeps the counter, or adds exactly the next id and bumps the counter. Every row that is not of the source's code on the target floor is unchanged. |
| `MoveRoute.TakeFromSource` | app/api/assets/move/route.js:82-96 | The source step leaves the log and the counter alone. The source id stays exactly when not all of its units move. Every other row is unchanged. |
| `MoveRoute.Transfer` | app/api/assets/move/route.js:51-108 | The writes of a move keep the old log as a prefix and append exactly one MOVE entry for the source id. |
| `MoveRoute.MoveRejections` | app/api/assets/move/route.js:10-47 | A move fails with `MissingField` exactly when `assetId`, `targetLantai` or `jumlahPindah` is falsy. Otherwise it fails with `QuantityBelowOne` exactly when the quantity is below 1. Otherwise it fails when the id is unknown, when the source holds fewer units than requested, or when the target floor is the source's own floor, in that order: `SameFloor` only when the source holds enough units. It succeeds exactly when every check passes, and any failure leaves the whole state unchanged. |
| `MoveRoute.MoveMergesIntoExisting` | app/api/assets/move/route.js:51-66 | If the target floor has a row with the source's code, that row's `jumlah` grows by exactly the moved quantity. Its other fields stay the same, and no row is created. |
| `MoveRoute.MoveCreatesOnTarget` | app/api/assets/move/route.js:67-80 | Otherwise exactly one new row appears, at the next id. It is on the target floor, copies name, code, condition and status from the source, and holds the moved quantity. |
| `MoveRoute.MoveReducesOrDeletesSource` | app/api/assets/move/route.js:82-96 | The source row is deleted exactly when its whole quantity moves. Otherwise it keeps every field except `jumlah`, which drops by the moved quantity. |
| `MoveRoute.MoveLeavesOtherRows` | app/api/assets/move/route.js:51-96 | Every row other than the source and the target row is untouched. |
| `MoveRoute.MoveLogsOnce` | app/api/assets/move/route.js:98-115 | A successful move appends exactly one entry: MOVE, the source id, the old floor, the target floor and the quantity. The returned summary carries the same name, floors and quantity. |
| `MoveRoute.AddToTargetKeepsValid` | app/api/assets/move/route.js:51-80 | Merging at least one unit into the target row, or creating that row at the next id, keeps the table invariant. |
| `MoveRoute.AddToTargetValid` | app/api/assets/move/route.js:51-80 | Merging into the target row or creating it at the next id keeps the table invariant, and the source row on the other floor is left as it was. |
| `MoveRoute.AddToTargetTotal` | app/api/assets/move/route.js:51-80 | The target step raises the total of the source's code by exactly the moved quantity and changes no other code's total. |
| `MoveRoute.TakeFromSourceKeepsValid` | app/api/assets/move/route.js:82-96 | Deleting the source row, or leaving it with the remaining units, keeps the table invariant. |
| `MoveRoute.TakeFromSourceSound` | app/api/assets/move/route.js:82-96 | Deleting or reducing the source row keeps the table invariant and lowers the total of its code by exactly the moved quantity. |
| `MoveRoute.MovePreservesValid` | app/api/assets/move/route.js:51-96 | A move keeps the table invariant: ids are below the counter, quantities are at least 1, and (code, floor) is unique. |
| `MoveRoute.MoveConservesQuantity` | app/api/assets/move/route.js:51-96 | For every code, the total quantity across all floors is the same after a move as before. |
| `MoveRoute.MoveAllToEmptyFloor` | app/api/assets/move/route.js:59-108 | Example: X1 with 5 units on floor 1 moves all 5 units to floor 2. The source row disappears, a 5-unit row of X1 appears on floor 2, and one MOVE entry is logged. |
| `AssetsRoute.CreateOp` | app/api/assets/route.js:34-106 | Any rejection leaves the table as it was. A success returns the next id, adds exactly that id to the table, bumps the counter and appends exactly one log entry. |
| `AssetsRoute.DefaultQuantity` | app/api/assets/route.js:47-48 | The quantity is never 0. It equals the given `jumlah` when that is nonzero. It is 1 when `jumlah` is missing or 0. |
| `AssetsRoute.CreateRejections` | app/api/assets/route.js:39-69 | Create fails with `MissingField` exactly when a required field is falsy. It fails with `QuantityBelowOne` exactly when the given quantity is negative. It fails with `DuplicateCodeOnFloor` exactly when a row with the same code is already on that floor. Each failure leaves the whole state unchanged. |
| `AssetsRoute.CreateSameCodeOtherFloor` | app/api/assets/route.js:56-62 | A valid request whose code exists only on other floors is accepted. |
| `AssetsRoute.CreateAddsOneRow` | app/api/assets/route.js:71-96 | A successful create adds exactly one row, at the next id, with the given fields and the defaulted quantity. Every existing row is unchanged, and one CREATE entry for the new id with the same quantity is appended. |
| `AssetsRoute.CreatePreservesValid` | app/api/assets/route.js:56-83 | Create keeps the table invariant, including (code, floor) uniqueness. |
| `AssetsRoute.CreateAddsQuantity` | app/api/assets/route.js:72-83 | A create raises its code's total by the new row's quantity and leaves every other code's total unchanged. |
| `AssetsRoute.CreateDuplicateExample` | app/api/assets/route.js:56-83 | Example: with X1 on floor 1, creating X1 on floor 1 is rejected and changes nothing. Creating X1 on floor 2 succeeds with quantity 1. |
| `AssetsRoute.ListAssets` | app/api/assets/route.js:5-21 | The listing is a permutation of the filtered rows with their recent logs, ordered by descending `created_at`. |
| `AssetsRoute.LogsOf` | app/api/assets/route.js:15-16 | Each entry occurs exactly as often as in the log when it belongs to the asset, and not at all otherwise. |
| `AssetsRoute.RecentLogs` | app/api/assets/route.js:15-19 | At most 5 entries, each a distinct occurrence of one of the asset's own entries. |
| `AssetsRoute.RecentLogsAreOwn` | app/api/assets/route.js:15-19 | Each asset carries the smaller of 5 and its entry count, as distinct occurrences of its own entries (a sub-multiset). With 5 or fewer entries it carries exactly all of them. |
| `AssetsRoute.RecentLogsAreNewest` | app/api/assets/route.js:15-20 | The carried entries are newest first. Every entry of the asset left out, counting repeated entries one by one, is no newer than any entry kept. |
| `AssetsRoute.MatchingIds` | app/api/assets/route.js:10-13 | It holds exactly the ids whose rows pass the floor filter, all rows when no filter is given, in strictly increasing order. |
| `AssetsRoute.WithLogs` | app/api/assets/route.js:15-20 | One entry per id. An entry is produced exactly for a given id, carrying that id's stored row and recent logs. Distinct ids give a listing without repeats. |
| `AssetsRoute.UnorderedListingExact` | app/api/assets/route.js:10-20 | Before ordering, an entry is listed exactly when its row passes the filter and it carries that row and its recent logs. No entry is listed twice. |
| `AssetsRoute.ListAssetsPermutes` | app/api/assets/route.js:12-14 | Ordering by `created_at` neither adds nor drops an entry, and lists none twice. |
| `AssetsRoute.ListAssetsExact` | app/api/assets/route.js:10-21 | With a floor filter, the listing holds exactly that floor's rows. Without one it holds every row. Each row appears once with its stored fields and recent logs, ordered by `created_at` descending. |
| `Ordering.InsertDescSorted` | app/api/assets/route.js:14 | Inserting into a sequence ordered by descending key keeps it ordered. |
| `Ordering.SortedDescOrder` | app/api/assets/route.js:14 | In a sequence ordered by descending key, every earlier element has a key at least that of every later one. |
| `Ordering.SortDesc` | app/api/assets/route.js:14-17 | The result is a permutation of the input, ordered by descending key. |
| `Ordering.TopOfSortedCounts` | app/api/assets/route.js:16-18 | The first n after sorting have the smaller of n and the input's length. They are a sub-multiset of the input, and all of it when it has at most n elements. |
| `Ordering.TopOfSortedOrder` | app/api/assets/route.js:16-18 | The first n after sorting are in descending order. No occurrence left out, counting repeated elements one by one, is greater than anything kept. |
| `Ordering.TakeKeepsGreatest` | app/api/assets/route.js:17-18 | Taking the first n of a descending sequence keeps the newest. No occurrence left out, counting repeated elements one by one, is greater than anything kept. |
| `AssetStore.AssetDb.Create` | app/api/assets/route.js:33-106 | Creating in place leaves exactly the state and result of `CreateOp` and keeps the table invariant. A rejection changes nothing. On success exactly one row and one CREATE entry are added. |
| `AssetStore.AssetDb.AddToTargetRow` | app/api/assets/move/route.js:51-80 | The in-place target step keeps the table invariant when it adds at least one unit, and leaves exactly the state `AddToTarget` describes. |
| `AssetStore.AssetDb.TakeFromSourceRow` | app/api/assets/move/route.js:82-96 | On the stored source row with enough units, the in-place source step keeps the table invariant and leaves exactly the state `TakeFromSource` describes. |
| `AssetStore.AssetDb.Move` | app/api/assets/move/route.js:4-130 | Moving in place leaves exactly the state and result of `MoveOp` and keeps the table invariant. A rejection changes nothing. On success exactly one MOVE entry is appended. |

## Left out

- HTTP framing: the `NextResponse` bodies, status codes, JSON parsing and the message strings, including the log's free-text `deskripsi`. Outcomes are a `Result` with an error kind.
- `parseInt` edge cases: NaN and partially numeric strings. Fields arrive as parsed integers, and a truthy but unparseable value in the move body (which would reach the database as NaN) is not represented.
- Concurrency and isolation between requests. This includes the create route's duplicate check, which runs outside its transaction. Each operation is one atomic step.
- Foreign-key and cascade behaviour of the log. The database schema is not part of this model. The log is append-only here, and deleting a row by a move-all leaves its entries in place.
- The update and delete routes (app/api/assets/[id]/route.js), including their in-place floor change, are not part of this model.
- The React pages, the sidebar, the layout and the seeding script.
- A 1..3 floor range: neither modelled route checks it, so the model does not either.
- The `kategori` column. The update route writes it (app/api/assets/[id]/route.js:40, 78) and the pages show it, but neither modelled route sets it. A create does not read it from the body, and the row a move creates on the target floor copies only name, code, condition and status. So units moved to a floor without a row of their code lose their category, and a move-all deletes the only row that carried it. The column's default lives in the database schema, which is not part of this model, so `Asset` has no such field.
- String-valued numeric fields. Both routes test truthiness on the raw body value before `parseInt`, and a string `"0"` is truthy. In the source, `targetLantai: "0"` moves the units to floor 0 and `lokasi_lantai: "0"` creates a row on floor 0. `assetId: "0"` fails as an unknown asset (a 500), and `jumlahPindah: "0"` fails the `qty < 1` check. Every numeric field arrives here already parsed, so the model answers `MissingField` to a zero in any of them.
- What keeps the table invariant outside the modelled routes. Every operation requires `ValidTable` on entry, and the create and move routes are proved to keep it. The update route (app/api/assets/[id]/route.js:62-83) changes `lokasi_lantai` in place without looking for the same code on the new floor. So (code, floor) uniqueness across all routes holds only if the database schema has a compound unique constraint on those two columns. That schema is not part of this model.
- Database column semantics. Ids, `jumlah` and floors are unbounded integers. In the database a write outside the integer column's range fails and rolls the transaction back. Examples are `targetAsset.jumlah + qty` in a merge, or a very large quantity in a create or a move. The model reports success in those cases.
- String comparison in the two `findFirst` lookups on `kode_aset` is exact sequence equality. The database's collation (case or accent folding, trailing spaces) is not modelled.
- The matcher reads the path as a raw string. URL decoding and the framework's own path normalisation are not modelled. The pattern is matched in full, including the `.*` that cannot cross a line terminator.
