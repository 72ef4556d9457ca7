# ServicePropusk pass and building layer in Dafny

ServicePropusk issues visitor passes for university buildings. A user adds
buildings to a draft pass, names the visitor and the visit date, and submits
("forms") the draft; a moderator then rejects or completes it. Administrators
maintain the building catalogue and its pictures.

This project models the business layer of that system as a verified state
machine over an in-memory model of the relational tables it uses:

- `Tables` holds the rows of the `passes`, `buildings_passes`, `buildings` and
  user tables in one `Database` object. It also holds the WHERE clauses of the
  SQL statements, written as row filters.
- `PassesRepo`, `BuildingsRepo` and `UsersRepo` are classes over that object.
  Each SQL statement is a method. A statement that writes changes exactly the
  rows its WHERE clause selects. "0 rows affected" becomes the repository's
  not-found sentinel.
- `S3Minio` holds the string helpers of the object store: the endpoint, the
  object keys, the picture URL and the first-match building search. Its two
  buckets are maps from key to bytes.
- `Auth` reads token claims through an abstract verifier.
- `PassService`, `PassBuildingService`, `BuildingService` and `UserService` are
  the four services. Each is a class whose methods run the source's chain of
  checks in the source's order. Their contracts state, for every path, which
  error wins and what has been written, in terms of the state before the call.
- `ServiceCatalog` is the legacy in-memory catalogue of five seeded services.

Infrastructure failures are inputs. Every store call takes a set `faults` of
calls that fail, and the call named by a `Call` value fails exactly when it is
in that set. Clock readings (`now`) and fresh UUIDs (`newPassID`, `recordID`,
`freshId`, `freshUid`) are parameters. Password hashing is a function
parameter. The acting user of the pass service is the constructor parameter
`userID`, which stands for `consts.UserID`.

The invariant the pass layer keeps is `Tables.OneDraftPerCreator`: no creator
has two draft passes. Every pass-service operation preserves it. The one
exception is adding a building after the draft lookup itself failed.

## Model

| member | source | states |
|---|---|---|
| Strings.ContainsAt | internal/repository/s3minio/s3minio.go:338 | the substring test holds exactly when the pattern occurs at some offset of the name |
| Tables.FirstPass | internal/repository/postgres/passes/passes.go:198-202 | the row a single-row query answers, fixed to the first row its WHERE clause selects; no earlier row is selected |
| Tables.FindPass | internal/repository/postgres/passes/passes.go:28-40 | a single-row query finds nothing exactly when no row is selected, and otherwise answers a selected row of the table |
| Tables.NewDraftKeepsOneDraft | internal/service/pass/service.go:169-185 | inserting a draft for a creator who has none keeps every creator at no more than one draft |
| Tables.UpdateKeepsOneDraft | internal/service/pass/service.go:192-207 | an update that never sets status 0 (a status write, or an edit of visitor and date) keeps every creator at no more than one draft |
| Tables.OnlyDraft | internal/repository/postgres/passes/passes.go:198-216 | when each creator has at most one draft, the draft lookup finds the creator's draft, whichever it is |
| Tables.CountItemsZero | internal/repository/postgres/passes/passes.go:227-249 | an association count is zero exactly when no association row is selected |
| Tables.UpdateNoItem | internal/service/passBuilding/service.go:87-99 | an update of association rows that selects no row leaves the table unchanged |
| Tables.RemoveItemsSpec | internal/service/passBuilding/service.go:134-138 | deleting association rows keeps exactly the rows not selected, each as many times as it occurred (duplicate links included), and removes as many rows as were counted |
| Tables.RemoveNoItem | internal/service/passBuilding/service.go:134-145 | a delete that selects no association row leaves the table unchanged |
| Tables.NoDraftCountsNothing | internal/repository/postgres/passes/passes.go:227-239 | a creator without a draft has nothing counted |
| Tables.DraftItemCountOfOnlyDraft | internal/repository/postgres/passes/passes.go:227-249 | with one draft per creator, the joined count equals the number of association rows of that draft |
| Tables.FirstBuilding | internal/repository/postgres/buildings/buildings.go:96-106 | the row a single-building query answers, fixed to the first selected row; no earlier row is selected |
| Tables.CountBuildingsZero | internal/repository/postgres/buildings/buildings.go:143-186 | the rows-affected count of a building update is zero exactly when no building row is selected |
| Tables.UpdateNothing | internal/repository/postgres/buildings/buildings.go:143-160 | a building update that selects no row leaves the table unchanged |
| Tables.SelectBuildingsSpec | internal/repository/postgres/buildings/buildings.go:28-51 | a catalogue query keeps exactly the building rows its filter selects |
| Tables.EmptyPatternSelectsAllActive | internal/service/building/service.go:110-112 | a name search with the empty pattern selects the same rows as the query for all active buildings |
| Tables.JoinLinkCount | internal/repository/postgres/passes/passes.go:51 | one association row joins with as many building rows as carry its building id |
| Tables.JoinRowsCount | internal/repository/postgres/passes/passes.go:51-101 | when every building linked to the pass exists exactly once in the building table, the pass's joined rows are as many as its association rows; a link to a missing building joins to nothing |
| Tables.JoinRowsSource | internal/repository/postgres/passes/passes.go:51 | every joined row comes from an association row of that pass and a building row with that building's id |
| Tables.FirstUser | internal/service/user/user.go:37-44 | the row the login lookup answers, fixed to the first user row with that login |
| PassesRepo.ScanPassItems | internal/repository/postgres/passes/passes.go:71-101 | the row loop yields one item per joined row, in order, with the building's fields and a NULL comment read as "" |
| PassesRepo.ShortLookup | internal/service/passBuilding/service.go:21-23 | the short lookup succeeds exactly when the call does not fail and some pass has the id; it answers that id with no items |
| PassesRepo.Storage.Pass | internal/repository/postgres/passes/passes.go:22-104 | succeeds exactly when a pass with that id has status 0 and neither query fails; otherwise it answers "pass not found" or the failing query's error; on success it answers the draft's visitor and date and one scanned item per joined row |
| PassesRepo.Storage.ID | internal/repository/postgres/passes/passes.go:106-133 | answers "" without an error when the creator has no draft, and the draft's id otherwise |
| PassesRepo.Storage.AddToPass | internal/repository/postgres/passes/passes.go:135-153 | appends exactly one association row for (pass, building), with no duplicate check; a failure writes nothing |
| PassesRepo.Storage.Delete | internal/repository/postgres/passes/passes.go:155-164 | writes status 1 (the Formed code) on every row with that id, and nothing else |
| PassesRepo.Storage.NewDraftPass | internal/repository/postgres/passes/passes.go:166-188 | appends exactly one pass row, with status 0 and the given creator, visitor and date |
| PassesRepo.Storage.DraftPassIDByCreator | internal/repository/postgres/passes/passes.go:190-217 | succeeds exactly when the creator has a draft and answers its id; otherwise "pass not found" |
| PassesRepo.Storage.ItemsCount | internal/repository/postgres/passes/passes.go:219-250 | succeeds exactly when the creator has a draft; answers the number of its association rows, 0 for an empty draft |
| PassesRepo.Storage.PassShort | internal/service/passBuilding/service.go:21-23 | answers status and creator of the pass with that id, whatever its status; not-found when there is none |
| PassesRepo.Storage.EditPassStatusByUser | internal/service/pass/service.go:90-95 | sets status and the user's timestamp on the rows with that id and changes nothing else |
| PassesRepo.Storage.EditPassStatusByModerator | internal/service/pass/service.go:82-88 | sets status, timestamp and moderator on the rows with that id and changes nothing else |
| PassesRepo.Storage.EditWasVisitedForPass | internal/service/pass/service.go:97-100 | marks every association row of the pass visited and changes nothing else |
| PassesRepo.Storage.EditPass | internal/service/pass/service.go:75-80 | replaces visitor and visit date on the rows with that id, whatever their status |
| PassesRepo.Storage.EditPassBuildingComment | internal/service/passBuilding/service.go:26-31 | fails exactly when the call fails or the pair has no association row, and then writes nothing; otherwise it replaces the comment of exactly that pair's rows |
| PassesRepo.Storage.DeleteBuildingFromPass | internal/service/passBuilding/service.go:33-37 | fails exactly when the call fails or the pair has no association row, and then writes nothing; otherwise it removes exactly that pair's rows |
| BuildingsRepo.ScanBuildings | internal/repository/postgres/buildings/buildings.go:36-49 | the row loop yields one model per selected row, in order |
| BuildingsRepo.CatalogueMembership | internal/repository/postgres/buildings/buildings.go:28-51 | a scanned catalogue contains exactly the models of the rows the filter selects |
| BuildingsRepo.Storage.AllBuildings | internal/repository/postgres/buildings/buildings.go:22-52 | answers exactly the buildings with status true, in the row order the model fixes; the only error is the query's own |
| BuildingsRepo.Storage.FindBuildings | internal/repository/postgres/buildings/buildings.go:54-88 | answers exactly the active buildings whose name contains the pattern, in the row order the model fixes; an empty result is not an error |
| BuildingsRepo.Storage.Building | internal/repository/postgres/buildings/buildings.go:90-118 | succeeds exactly when an active building has the id, and then answers that building, which carries the requested id; a missing or inactive one is not-found |
| BuildingsRepo.Storage.EditBuildingImgUrl | internal/repository/postgres/buildings/buildings.go:120-135 | sets the picture address of the rows with that id, active or not; a missing id is not an error |
| BuildingsRepo.Storage.EditBuildingInfo | internal/repository/postgres/buildings/buildings.go:137-161 | changes name and description of active rows with that id only; not-found with nothing written when no row matched |
| BuildingsRepo.Storage.EditBuildingStatus | internal/repository/postgres/buildings/buildings.go:163-187 | sets the status of the rows with that id whatever it was; not-found only when the id is absent |
| BuildingsRepo.Storage.SaveBuilding | internal/repository/postgres/buildings/buildings.go:189-209 | appends exactly one building row, with status true and picture address "/" |
| UsersRepo.UserStore.User | internal/service/user/user.go:37-44 | succeeds exactly when some user has the login, and answers that user's id, role and hash; otherwise no-rows or the query's error |
| UsersRepo.UserStore.NewUser | internal/service/user/user.go:46-53 | appends exactly one user row with the given fields |
| UsersRepo.UserStore.EditUser | internal/service/user/user.go:54-59 | replaces login and hash on the rows of that uid only |
| Auth.Claims | internal/service/auth/service.go:75-84 | fails with the token error exactly when the token does not verify, and otherwise answers the verifier's identity |
| S3Minio.Config.Endpoint | internal/repository/s3minio/s3minio.go:30-32 | the endpoint is the host, a colon, then the port |
| S3Minio.SplitAtColon | internal/repository/s3minio/s3minio.go:30-32 | splits at the first colon, so that the two parts joined with a colon give the input back |
| S3Minio.SplitJoined | internal/repository/s3minio/s3minio.go:30-32 | splitting host, colon and port gives back host and port when the host has no colon |
| S3Minio.EndpointRoundTrip | internal/repository/s3minio/s3minio.go:30-32 | host and port are recovered from the endpoint when the host has no colon |
| S3Minio.ObjectKey | internal/repository/s3minio/s3minio.go:357 | the key of an object is its id followed by ".png" |
| S3Minio.KeyRoundTrip | internal/repository/s3minio/s3minio.go:474 | the id is recovered from its object key |
| S3Minio.ObjectKeyInjective | internal/repository/s3minio/s3minio.go:497 | two ids with the same object key are equal |
| S3Minio.PhotoUrl | internal/repository/s3minio/s3minio.go:425 | a picture address is "/", the bucket, "/", then the object key |
| S3Minio.PhotoUrlInjective | internal/repository/s3minio/s3minio.go:425 | two ids with the same picture address in one bucket are equal |
| S3Minio.GetBuildId | internal/repository/s3minio/s3minio.go:336-344 | fails with "build not found" exactly when no name contains the pattern; otherwise answers the id of the first building, in list order, whose name contains it |
| S3Minio.EmptyNameFindsFirst | internal/repository/s3minio/s3minio.go:336-341 | the empty pattern finds the first building of a non-empty list |
| S3Minio.MinioRepository.SaveBuildingPreview | internal/repository/s3minio/s3minio.go:346-375 | stores the bytes under the id's key in the picture bucket and nowhere else |
| S3Minio.MinioRepository.DeleteBuildingPreview | internal/repository/s3minio/s3minio.go:464-483 | removes the id's key from the picture bucket and nothing else |
| S3Minio.MinioRepository.SaveQRCode | internal/repository/s3minio/s3minio.go:486-515 | stores the bytes under the id's key in the QR bucket and nowhere else |
| PassService.PassService.GetPassID | internal/service/pass/service.go:119-131 | answers the fixed user's draft id, or "" when there is none; the token is not read |
| PassService.PassService.GetPassItemsCount | internal/service/pass/service.go:209-216 | answers the number of buildings in the fixed user's draft and fails when there is no draft; the token is not read |
| PassService.PassService.AddBuildingToPass | internal/service/pass/service.go:162-190 | with a draft: no pass is created and the item joins that draft; after any failed lookup: a draft with status 0 and an empty visitor is created and the item joins it; a failed create returns its error with nothing written; one draft per creator is kept whenever the lookup itself does not fail |
| PassService.PassService.Delete | internal/service/pass/service.go:192-207 | writes status 4 with no precondition on status or owner; only the status write changes the store; one draft per creator is kept |
| PassService.PassService.EditPass | internal/service/pass/service.go:248-260 | replaces visitor and date whatever the status; one draft per creator is kept |
| PassService.PassService.ToForm | internal/service/pass/service.go:262-284 | a pass that is not a draft, or does not exist, fails with "pass not found"; a draft without a visitor name fails; neither writes anything; otherwise status 1 is written; success implies a draft with a visitor name |
| PassService.PassService.RejectPass | internal/service/pass/service.go:286-309 | writes status 2 with an empty moderator id; a failed write returns before the visited marking; a failed marking is swallowed |
| PassService.PassService.CompletePass | internal/service/pass/service.go:311-332 | writes status 3 with an empty moderator id; a failed write returns before the visited marking; a failed marking is swallowed |
| PassService.PassService.Moderate | internal/service/pass/service.go:295-308 | the two ordered moderator writes: the status write first, whose failure changes nothing; then the visited marking, whose failure does not change the result |
| PassBuildingService.Guard | internal/service/passBuilding/service.go:69-85 | passes exactly for an existing draft of the caller; lookup not-found gives InvalidPass and other lookup errors InternalServer; a non-creator gets InvalidPass; a non-draft gets PassIsNotDraft |
| PassBuildingService.EditorError | internal/service/passBuilding/service.go:93-99 | a not-found write becomes InvalidPassBuilding and every other failure InternalServer |
| PassBuildingService.GuardErrors | internal/service/passBuilding/service.go:79-85 | the guard never answers NoPermission, and for a non-owner its answer does not depend on the status |
| PassBuildingService.GuardOnTable | internal/service/passBuilding/service.go:69-85 | on the pass table the guard passes exactly when the pass with that id was created by the caller and is a draft; a missing pass gives InvalidPass |
| PassBuildingService.PassBuildingService.Edit | internal/service/passBuilding/service.go:57-103 | a claims error is returned with nothing read or written; every guard failure writes nothing; a missing pair gives InvalidPassBuilding; on success only that pair's comment changes |
| PassBuildingService.PassBuildingService.Delete | internal/service/passBuilding/service.go:105-149 | a claims error is returned with nothing written; every guard failure writes nothing; a missing pair gives InvalidPassBuilding; on success exactly that pair's rows are gone and all others remain |
| BuildingService.AdminCheck | internal/service/building/service.go:150-158 | passes exactly for a verified administrator; otherwise AuthToken for a bad token and NoPermission for a non-administrator |
| BuildingService.LookupError | internal/service/building/service.go:131-141 | a missing building becomes BuildingNotFound and every other failure InternalServer |
| BuildingService.SearchError | internal/service/building/service.go:114-122 | nothing found becomes BuildingsNotFound and every other failure InternalServer |
| BuildingService.EditError | internal/service/building/service.go:200-208 | a missing building becomes InvalidBuilding and every other failure InternalServer |
| BuildingService.ServiceUrlIsStoreUrl | internal/service/building/service.go:301 | the address the service writes, built from its fixed bucket name "services", equals the object store's address of the picture in the store's configured bucket exactly when that bucket is "services" |
| BuildingService.BuildingService.GetAllBuildings | internal/service/building/service.go:94-104 | answers exactly the active buildings and fails only as InternalServer |
| BuildingService.BuildingService.FindBuildings | internal/service/building/service.go:106-125 | answers the active buildings whose name contains the pattern; the empty pattern goes to the full catalogue query and gives the same answer |
| BuildingService.BuildingService.GetBuilding | internal/service/building/service.go:127-142 | answers the active building with that id; otherwise BuildingNotFound, or InternalServer when the query fails |
| BuildingService.BuildingService.CheckEditAccess | internal/service/building/service.go:312-326 | succeeds exactly for a verified administrator; AuthToken or NoPermission otherwise |
| BuildingService.BuildingService.AddBuilding | internal/service/building/service.go:144-173 | only an administrator writes; exactly one active building with the fresh id, name and description is added; a save failure is InternalServer |
| BuildingService.BuildingService.EditBuilding | internal/service/building/service.go:175-211 | only an administrator writes; name and description of the active building change; a missing one is InvalidBuilding with nothing written |
| BuildingService.BuildingService.DeleteBuilding | internal/service/building/service.go:213-258 | only an administrator writes; a missing building is InvalidBuilding; other lookup failures are ignored; the status is set to false before the picture is deleted; a failed picture delete is InternalServer after the withdrawal |
| BuildingService.BuildingService.EditBuildingPreview | internal/service/building/service.go:260-310 | only an administrator writes; a missing building is reported before the bucket is touched; a failed old-picture delete is ignored; the new picture is stored, then the address "/services/" + id + ".png" is set; on success the picture is in the bucket and the building's address is the store's address of it exactly when the store's picture bucket is "services" |
| UserService.RegistrationCheck | internal/service/user/user.go:68-81 | registration passes exactly for a free login, a password of at least 8 code points and a successful hash; a taken login wins over a short password, which wins over a hash failure; a hash failure aborts with a panic, because the logger it reports to is never set |
| UserService.TakenLoginWins | internal/service/user/user.go:68-75 | a taken login gives the same answer whatever the password, and never the short-password error |
| UserService.UserService.NewUser | internal/service/user/user.go:62-96 | a rejected registration writes nothing, and a hash failure ends in a panic; a successful one appends exactly one non-administrator user with the fresh id, the login and the hash; a save failure is InternalServer |
| UserService.UserService.Logout | internal/service/user/user.go:98-104 | always succeeds and touches nothing |
| UserService.UserService.Edit | internal/service/user/user.go:106-130 | a claims error or a hash failure is returned with nothing written; only the rows of the token's uid change; a save failure is InternalServer |
| ServiceCatalog.FirstService | repository/services/inmemory/inmemory.go:60-65 | answers the index of the first service with that id; no earlier service has it |
| ServiceCatalog.LookupOnIndexedCatalogue | repository/services/inmemory/inmemory.go:60-67 | on a catalogue whose ids are its indices, the lookup finds exactly the ids 0 to length - 1, each at its own index |
| ServiceCatalog.Repository.New | repository/services/inmemory/inmemory.go:14-54 | the seed holds exactly five services, service k at index k, with the seeded prices |
| ServiceCatalog.Repository.Services | repository/services/inmemory/inmemory.go:56-58 | answers the stored services unchanged |
| ServiceCatalog.Repository.Service | repository/services/inmemory/inmemory.go:60-68 | answers the first stored service with that id and fails with "service not found" exactly when there is none; storage is not changed |
| ServiceCatalog.LookupOnSeed | repository/services/inmemory/inmemory.go:14-68 | on the seeded catalogue the lookup succeeds exactly for ids 0 to 4 and answers the service with that id |

## Left out

- Object storage I/O is not modelled: bucket creation, policies, `SyncBuildsPhotos`, the file reading and upload of `uploadPhoto`, and the `Print*` functions are network calls. The two buckets are maps from key to bytes, and the store's own error texts are folded into one fault per call.
- Connection and wiring code is not modelled: the pgx pool, `QueryRow`/`Exec` mechanics, configuration, the application wiring and the mains.
- The transport layer is not modelled: HTTP handlers, gin pages, GraphQL resolvers and Swagger are glue around the services.
- HTML rendering of passes and buildings is not modelled.
- Cryptography is not modelled: JWT verification is the abstract `Auth.Verifier`, and bcrypt hashing is the function parameter `hash`, which may fail.
- The superseded int64-id pass repository and service, the delegating build service, the session wrapper around user.go, the cart map and the token store are not modelled, because they duplicate or wrap the modelled code.
- The pass service's `Pass`, `DeleteBuildingFromPass` and `Passes` are one-line pass-throughs to the repository and are not separate members. The filtered listing `Passes` is left out because its SQL is not part of this model.
- The race between the draft lookup and the draft insert in `AddBuildingToPass` is not modelled; every operation runs alone.
- `%` and `_` in a name pattern act as SQL wildcards, and the concatenated pattern allows injection. The model treats the pattern as a plain substring.
- BuildingsRepo.ScanBuildings, BuildingsRepo.Storage.AllBuildings, BuildingsRepo.Storage.FindBuildings, PassesRepo.ScanPassItems, PassesRepo.Storage.Pass: a failure after a multi-row query has started is not modelled. The row loops never check the row stream's error, so the source then answers the rows read so far without an error. The model answers either the query's error or the complete result, and so do the catalogue queries and the pass items of the services built on them.
- Row order is not modelled as the source leaves it: none of the queries has an ORDER BY, so SQL fixes no order of a multi-row result, and a single-row query reads some matching row. The model fixes multi-row results to the order of the table sequence and single-row queries to the first matching row; the source promises neither.
- A Go panic is modelled as the terminal outcome `Failure(Panic)` with nothing written. What the HTTP server's recovery then sends is not modelled.
- `UserService.NewUser`: the password rule counts Unicode code points. A Dafny string cannot hold invalid UTF-8, which Go counts one rune per bad byte.
- `PassService.PassService`: the value of `consts.UserID` is not part of this model. The fixed acting user is a constructor parameter.
- The statements behind `PassShort`, the status writes, the visited marking, `EditPass`, the comment edit, the item delete and the user store are not part of this model. They are given the smallest semantics their callers rely on. Selecting rows by id, and "0 rows affected" being not-found for the two pass-item writes, are modelling choices. So are the column names of the timestamps and the moderator.
- `ServiceCatalog.Repository.New`: its contract states count, ids and prices but not the names, descriptions and picture addresses of the seed, which the body sets.
- The user store in internal/repository/postgres/user/user.go does not implement the interfaces of internal/service/user/user.go: its signatures differ, and its update statement uses `&1` for a placeholder. The model follows the interfaces at user.go:37-60.

## Notes on the code

These are places where the code behaves differently from what its status and
error names lead a reader to expect. The model follows the code in each case.

- `PassesRepo.Storage.Delete` writes status 1, the Formed code, not 4. The pass service's `Delete` does not call it; it writes status 4 through the user's status write.
- `ToForm`, `Delete`, `EditPass`, `RejectPass` and `CompletePass` check neither ownership, nor the current status, nor the administrator role. The only status condition is the one in `ToForm`, which comes from the repository's `status = 0` lookup. Forming also checks neither the number of items nor the QR code.
- Adding a building never checks whether it is already in the draft, so `BuildingAlreadyAdded` is never returned.
- The pass service ignores the token and acts for the fixed user `consts.UserID`.
- The save interface of the pass service passes a status to `NewPass`, but the repository's `NewDraftPass` always writes 0.
- A failing draft lookup in `AddBuildingToPass`, for whatever reason, creates a second draft for a creator who already has one.
- A failing login lookup in `NewUser`, for whatever reason, lets registration proceed, even when the login is taken.
- `FindBuildings` in the service translates a repository not-found into `BuildingsNotFound`. The repository's search never returns not-found, because a multi-row query does not report an empty result, so that branch cannot be reached.
- The two pass-editor interfaces disagree on argument order. internal/service/pass/service.go:69-73 takes `DeleteBuildingFromPass(buildingID, passId)`, while internal/service/passBuilding/service.go:33-37 takes `(passID, buildingID)`. The model follows the second, which is the one with a caller.
- Pass-item errors report a pass of another user as `InvalidPass`, never as `NoPermission`, and ownership is checked before status.
- A NULL comment is read as the empty string.
- The building service writes picture addresses with its own fixed bucket name, "services", while the object store saves pictures in its configured picture bucket. The addresses in the building table point at the stored pictures only when that bucket is configured as "services".
- The user service's constructor never sets its logger. When hashing fails in `NewUser`, the logger call at internal/service/user/user.go:79 dereferences a nil logger and panics, so the "internal server error" at user.go:80 is never returned. bcrypt refuses passwords longer than 72 bytes, so a 73-character ASCII password of a free login reaches this path. `Edit` returns its hashing error without logging and does not panic.
