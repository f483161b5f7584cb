# github-users, modelled in Dafny

github-users mirrors GitHub's public user list into a PostgreSQL table. It
serves the stored users over HTTP (gin) and gRPC, with a Redis read-through
cache in front of GitHub for single users. This project models the decision
logic of that system and proves properties of it:

- **The sync job** (`sync_users.dfy`). A producer pages through GitHub's user
  list with a `since` cursor. It retries each page up to three times, sleeping
  k seconds after the k-th failure, and stops when the retries run out or when
  a page comes back empty. It sends every mapped record of a page into a
  bounded channel. Workers drain that channel and upsert each record into a
  table keyed by id. The model runs the pipeline sequentially: the upstream is
  a script of per-call outcomes, the channel is the sequence of records sent,
  and the table is a map from id to user.
- **The user service** (`services.dfy`) and **the older service it replaced**
  (`legacy_service.dfy`). Listing normalises its options. `Get` tries the
  cache, then the upstream, then writes the cache. `Update` reads a row,
  patches it field by field, writes it back and refreshes the cache. `Delete`
  removes rows and then the cache entry. The repository, the cache and the
  upstream are state and parameters of each call: a map by id, a map by login
  and the upstream's answer. Each collaborator's failure is also a parameter.
- **Domain errors** (`domain_errors.dfy`): codes, messages, causes and the
  `errors.As` search along the unwrap chain. **The HTTP error middleware**
  (`error_middleware.dfy`) maps the last recorded error to a status code from
  section 15 of RFC 9110 (or 429 from section 4 of RFC 6585) and a JSON body.
- **The transports**: the gin controller (`user_controller.dfy`) and the gRPC
  server (`grpc_server.dfy`). Each resolves its defaults and classifies or
  forwards errors. The gRPC server also maps users to protocol messages.
- **The generic repository's query builder** (`generic_repository.dfy`). It
  extracts columns from `db` tags and builds the text of the upsert, select
  and delete statements.

`wrappers.dfy` holds `Option` and `Result`. `entities.dfy` holds the user
records: the upstream entry, the stored user, the list options and the
update request.

## Model

| member | source | states |
|---|---|---|
| DomainErrors.Text | internal/domain/errors/errors.go:27-32 | a plain error's text is its own; a domain error's text starts with its message |
| DomainErrors.Unwrap | internal/domain/errors/errors.go:34 | the cause `Unwrap` yields is the error whose text follows the message and ": "; with no cause the text is the message alone |
| DomainErrors.New | internal/domain/errors/errors.go:36-38 | a new error has the given code, no cause, and the message as its whole text |
| DomainErrors.Wrap | internal/domain/errors/errors.go:40-42 | `errors.As` finds the wrapped error itself, with its code, message and cause; `Unwrap` yields the cause |
| DomainErrors.AsDomain | internal/domain/errors/errors.go:45-46 | the domain error `errors.As` finds lies on the unwrap chain, and is the error itself when that is a domain error |
| DomainErrors.IsCode | internal/domain/errors/errors.go:44-50 | a domain error is decided by its own code; a true answer comes from a domain error on the chain with that code; without one on the chain the answer is false |
| DomainErrors.NamedCodesDistinct | internal/domain/errors/errors.go:10-19 | the eight named error codes are distinct strings |
| DomainErrors.AsDomainIsFirstInChain | internal/domain/errors/errors.go:44-50 | `errors.As` finds a domain error iff the unwrap chain holds one, and then it finds the first one, with only plain errors before it |
| DomainErrors.WrapDecidesCode | internal/domain/errors/errors.go:40-50 | `IsCode` of a wrapped error holds for the wrapping code and for no other, whatever the cause carries |
| DomainErrors.UnwrapInvertsWrap | internal/domain/errors/errors.go:34-42 | `Unwrap` returns exactly the cause `Wrap` stored and nothing for `New`; `Wrap` with no cause is `New` |
| DomainErrors.TextOfWrap | internal/domain/errors/errors.go:27-32 | `Error()` is the message alone without a cause, otherwise "message: cause"; the message is always a prefix |
| ErrorMiddleware.StatusOfCode | internal/infrastructure/http/middleware/error_middleware.go:30-48 | every status lies between 400 and 500; only the six client codes get a status other than 500; the upstream and internal codes get 500 |
| ErrorMiddleware.MapErrorToResponse | internal/infrastructure/http/middleware/error_middleware.go:27-52 | the body's code equals the status; a 500 always carries "An internal error occurred"; any other status comes from the first domain error in the chain and carries its message; no domain error gives 500 |
| ErrorMiddleware.StatusMatchesCode | internal/infrastructure/http/middleware/error_middleware.go:30-48 | 400, 404, 409, 401, 403 and 429 each hold iff the error has the matching code; 500 holds iff it has none of those six |
| ErrorMiddleware.HandleRecordedErrors | internal/infrastructure/http/middleware/error_middleware.go:12-24 | nothing is written iff no error was recorded; otherwise the reply's code equals its status |
| ErrorMiddleware.LastErrorWins | internal/infrastructure/http/middleware/error_middleware.go:16-22 | only the last recorded error decides the reply; earlier ones are ignored |
| SyncUsers.SyncRecord | cmd/sync-users/main.go:126-135 | the dispatched record is the upstream entry with every field copied except the node id, which is left empty |
| SyncUsers.MaxIdIsMaximum | cmd/sync-users/main.go:121-125 | the running maximum is at least the start and every id, and equals the start or one of the ids |
| SyncUsers.MaxIdConcat | cmd/sync-users/main.go:121-137 | the cursor over two batches in turn is the running maximum over their concatenation |
| SyncUsers.RecordIdsOfSyncRecords | cmd/sync-users/main.go:126-127 | the dispatched records carry the ids of the upstream entries, in order |
| SyncUsers.RecordIdsConcat | cmd/sync-users/main.go:122-136 | the ids of two runs of records are the ids of each, in turn |
| SyncUsers.AppendRound | cmd/sync-users/main.go:81-138 | one more page adds its answers, requests, sleeps and records at the end; it sets the cursor to the page's running maximum; it counts an empty page onto the trailing empties or resets them to 0 |
| SyncUsers.FetchWithRetry | cmd/sync-users/main.go:85-99 | every attempt asks for `usersPerPage` users since the cursor; at most `maximumFetchRetries` attempts are made; the first success ends the loop; the k-th failure sleeps k seconds; the answers are the upstream's next ones, in order |
| SyncUsers.DispatchBatch | cmd/sync-users/main.go:121-136 | the channel gets every mapped record of the page, in upstream order; the cursor candidate is the running maximum of the old cursor and the page's ids |
| SyncUsers.ExtendRounds | cmd/sync-users/main.go:81-99 | a page fetched with the current cursor, from the next unconsumed answer and within the retry bound, keeps the history consistent |
| SyncUsers.NonEmptyPageWithinUpstream | cmd/sync-users/main.go:86-96 | a non-empty page comes from within the scripted answers (past their end the upstream has no more users) |
| SyncUsers.ExtendNeverStopped | cmd/sync-users/main.go:112-119 | a page that leaves fewer trailing empties than the threshold gives no reason to stop |
| SyncUsers.ProduceRound | cmd/sync-users/main.go:81-138 | one more page extends the requests, sleeps and channel by exactly that page's, and moves the cursor and the empty-page counter as the loop body does |
| SyncUsers.FetchRound | cmd/sync-users/main.go:82-99 | one pass of the outer loop up to the dispatch takes the page fetched since the current cursor, within the retry bound, from the next unconsumed answers; it extends the requests and sleeps by that page's; it consumes at least one answer, and a non-empty page lies within the scripted ones |
| SyncUsers.ExtendRunning | cmd/sync-users/main.go:101-119 | a page that was fetched and does not reach the empty threshold keeps the producer running |
| SyncUsers.RunProducer | cmd/sync-users/main.go:75-139 | the producer stops after the last page and ran on through every earlier one; it stops with retries exhausted iff the last page could not be fetched, and for lack of users only after `maximumConsecutiveEmpty` empty pages; the cursor, requests, sleeps and channel are those of the pages consumed |
| SyncUsers.StalePageKeepsCursor | cmd/sync-users/main.go:121-137 | a page whose ids are all at or below the cursor leaves the cursor unchanged and resets the empty-page count, so the next page is requested since the same id |
| SyncUsers.ThresholdOneStopsAtFirstEmptyPage | cmd/sync-users/main.go:112-118 | with a threshold of 1, no page before the last was empty, and the producer stops for lack of users exactly when the last page is empty |
| SyncUsers.DefaultsStopAtFirstEmptyPage | cmd/sync-users/main.go:23-29 | the program's constants form a valid configuration whose producer stops at the first empty page |
| SyncUsers.CursorMonotone | cmd/sync-users/main.go:121-137 | the cursor never decreases from one page to a later one, and never exceeds the final cursor |
| SyncUsers.CursorIsMaxDispatchedId | cmd/sync-users/main.go:78-137 | the cursor is the largest id ever sent on the channel, or 0 when none was sent |
| SyncUsers.UpsertAll | cmd/sync-users/main.go:60-61 | no stored id is lost, every record's id is stored, and the last record holds its id |
| SyncUsers.UpsertAllKeys | cmd/sync-users/main.go:60-61 | the upserts add exactly the records' ids to the table |
| SyncUsers.UpsertAllLast | cmd/sync-users/main.go:60-61 | last write wins: an id ends up holding the last record that carries it |
| SyncUsers.UpsertAllUntouched | cmd/sync-users/main.go:60-61 | a row whose id no record carries is left as it was, or stays absent |
| SyncUsers.LastRecordExists | cmd/sync-users/main.go:60-61 | every id the records carry has a last record carrying it |
| SyncUsers.ResyncIsIdempotent | cmd/sync-users/main.go:60-61 | upserting the same records again changes nothing |
| SyncUsers.IdSetHas | cmd/sync-users/main.go:60-61 | every upserted record's id is among the ids written |
| SyncUsers.RecordWithId | cmd/sync-users/main.go:60-61 | every id written belongs to an upserted record |
| SyncUsers.SameRecordsSameIds | cmd/sync-users/main.go:55-73 | two orders of the same records write the same ids and hold the same records |
| SyncUsers.DistinctUpsertHoldsEach | cmd/sync-users/main.go:60-61 | with distinct ids, the table holds each upserted record under its id |
| SyncUsers.UpsertOrderIrrelevant | cmd/sync-users/main.go:55-73 | with distinct ids, the order in which the workers upsert does not change the final table |
| SyncUsers.UpsertAllAppend | cmd/sync-users/main.go:60-61 | one more upsert replaces the row with the record's id |
| SyncUsers.SplitAppend | cmd/sync-users/main.go:61-68 | one more record goes to the successful upserts or to the logged failures, depending on its call |
| SyncUsers.DrainChannel | cmd/sync-users/main.go:60-71 | every record taken from the channel is upserted once, in order; a failed upsert is logged and the loop goes on without requeueing it; the table holds the successful upserts; there is one pause of `delayBetweenUpsertsMS` per record |
| SyncUsers.Synchronize | cmd/sync-users/main.go:52-141 | the whole run: the table ends with the successful upserts of every record sent, and the final cursor is the largest id sent |
| Services.NormalizeListOptions | internal/application/services/user_service.go:28-41 | limit ≤ 0 becomes 10, page ≤ 0 becomes 1, an empty column "id" and an empty direction "ASC"; every other value is kept, and the result is always usable |
| Services.NormalizeFixesExactlyNormal | internal/application/services/user_service.go:29-40 | normalising leaves options unchanged iff they are already usable, so it is idempotent |
| Services.FetchedUser | internal/application/services/user_service.go:57-66 | the user built from the upstream copies every field except the view type, which stays empty |
| Services.ApplyUpdate | internal/application/services/user_service.go:83-104 | each string field takes the request's value when it is non-empty and keeps the stored one otherwise; the admin flag always comes from the request; the id never changes |
| Services.ApplyUpdateIdempotent | internal/application/services/user_service.go:83-104 | applying a patch twice is applying it once; a patch of empty strings changes only the admin flag |
| Services.PatchFields | internal/application/services/user_service.go:83-104 | the in-place field-by-field patch yields `ApplyUpdate` of the stored user |
| Services.WithoutLoginRemovesExactly | internal/domain/interfaces/user_repository.go:13 | deleting by login removes exactly the rows with that login and keeps the others unchanged and keyed by id |
| Services.UpsertKeepsKeyedById | internal/domain/interfaces/user_repository.go:10 | an upsert under the user's id keeps the rows keyed by id and stores the user |
| Services.GetByLogin | internal/domain/interfaces/user_repository.go:11 | the lookup returns a stored row with the login iff one exists; otherwise it returns the no-rows error; a read fault is returned as it is |
| Services.UserService.constructor | internal/application/services/user_service.go:16-26 | the service starts with the given repository and, when it has one, the given cache |
| Services.UserService.List | internal/application/services/user_service.go:28-41 | the repository receives the normalised options and its answer is returned unchanged |
| Services.UserService.Get | internal/application/services/user_service.go:44-72 | a cache hit returns the cached user and does not call the upstream; otherwise the upstream is called once; its error is returned with the cache unchanged; its user is mapped, cached under its login unless the write fails (which is ignored) and returned |
| Services.UserService.Update | internal/application/services/user_service.go:74-113 | a failed read returns its error and writes nothing; a missing login returns the no-rows error; a failed upsert returns its error with the table and cache unchanged; on success the table and (unless the cache write fails) the cache hold the patched user, which is returned |
| Services.UserService.Delete | internal/application/services/user_service.go:115-124 | a failed delete returns its error with the table and cache unchanged; otherwise the rows with the login are gone, the cache entry is dropped unless that fails, and nil is returned |
| Services.GetTwiceAsksUpstreamOnce | internal/application/services/user_service_test.go:72-82 | with a cache, a user fetched under its own login is served from the cache on the next call, so two reads ask the upstream once |
| LegacyService.LegacyFetchedUser | internal/service/userservice.go:103-111 | the legacy user built from the upstream leaves both the node id and the view type empty |
| LegacyService.LegacyMappingDropsNodeId | internal/service/userservice.go:103-111 | the legacy mapping is the current one with the node id dropped; the two agree iff the upstream entry has no node id |
| LegacyService.UserService.constructor | internal/service/userservice.go:18-20 | the service starts with the given repository and, when it has one, the given cache |
| LegacyService.UserService.List | internal/service/userservice.go:22-24 | the repository's answer is returned unchanged, with no options and no defaults |
| LegacyService.UserService.Get | internal/service/userservice.go:87-116 | a cache hit returns the cached user without calling the upstream; an upstream error is returned with nothing cached; otherwise the legacy mapping is cached (when there is a cache) and returned |
| LegacyService.UserService.Update | internal/service/userservice.go:37-74 | the patch and its error paths are those of the current service; after a successful upsert the cache write is unguarded, so without a cache the call panics with the row already written |
| LegacyService.UserService.Delete | internal/service/userservice.go:76-85 | a failed delete leaves the table and cache alone; otherwise the rows with the login are gone and the cache entry is dropped when there is a cache |
| LegacyService.UpdateWithoutCachePanics | internal/service/userservice.go:69-73 | for any stored user and patch, the legacy service without a cache panics where the current service returns the patched user |
| UserController.DefaultQuery | internal/infrastructure/http/controllers/user_controller.go:26-36 | the value is the default or one of the query's values, and a present key yields a query value |
| UserController.Atoi | internal/infrastructure/http/controllers/user_controller.go:31 | a parsed value fits 64 bits and comes from a non-empty string that starts with a digit or a sign |
| UserController.AtoiReadsDecimal | internal/infrastructure/http/controllers/user_controller.go:31 | every 64-bit integer written in decimal parses back to itself |
| UserController.QueryInt | internal/infrastructure/http/controllers/user_controller.go:29-41 | a present parameter that parses gives its value; an absent, empty or malformed one keeps the default and is not an error |
| UserController.ListOptionsFromQuery | internal/infrastructure/http/controllers/user_controller.go:24-48 | the limit and page are the parsed parameters or 10 and 1; the column and direction are the parameters when present (even empty) or "id" and "asc" |
| UserController.ListUsers | internal/infrastructure/http/controllers/user_controller.go:21-57 | the service receives exactly the resolved options; its list is the answer and its error is recorded unchanged |
| UserController.GetUser | internal/infrastructure/http/controllers/user_controller.go:59-74 | a not-found error is recorded as it is; any other error is wrapped as internal "failed to get user"; a user is the answer |
| UserController.UpdateUser | internal/infrastructure/http/controllers/user_controller.go:76-96 | a body that does not bind is recorded as a validation error "invalid request payload"; a service error is wrapped as internal "failed to update user" |
| UserController.DeleteUser | internal/infrastructure/http/controllers/user_controller.go:98-109 | a service error is wrapped as internal "failed to delete user"; success answers with the path username |
| UserController.GetUserReply | internal/infrastructure/http/controllers/user_controller.go:64-70 | with the middleware: a missing user gives 404 with its message; 404 is given only for a missing user; every other service error gives 500 with the fixed message |
| UserController.UpdateUserReply | internal/infrastructure/http/controllers/user_controller.go:80-93 | with the middleware: a bind failure gives 400 "invalid request payload" whatever the service would do; any service error, a missing user included, gives 500 |
| UserController.DeleteUserReply | internal/infrastructure/http/controllers/user_controller.go:102-108 | with the middleware: a failed delete gives 500 with the fixed message, success gives 200 |
| UserController.ListOptionsReachingRepository | internal/infrastructure/http/controllers/user_controller.go:24-50 | through the controller and the service the repository always gets a positive limit and page: the requested ones when they parse and are positive. The direction is "asc" when absent but "ASC" when present and empty |
| UserController.MalformedLimitKeepsDefault | internal/infrastructure/http/controllers/user_controller_test.go:63-73 | `limit=notANumber&page=2&orderby=login&order=desc` resolves to limit 10, page 2, "login", "desc" |
| GrpcServer.ToProto | internal/infrastructure/grpc/server.go:36-48 | the message carries the nine fields of the user; reading it back gives the user |
| GrpcServer.FromProtoInvertsToProto | internal/infrastructure/grpc/server.go:36-48 | every message is the mapping of the user read back from it |
| GrpcServer.ToProtoInjective | internal/infrastructure/grpc/server.go:36-48 | distinct users give distinct messages |
| GrpcServer.OptionsFromRequest | internal/infrastructure/grpc/server.go:55-77 | limit 0 becomes 10, page 0 becomes 1, an empty column "id" and an empty direction "asc"; every other value, negatives included, passes through |
| GrpcServer.ListUsers | internal/infrastructure/grpc/server.go:50-90 | the service receives the resolved options; its error is returned unchanged; otherwise the messages are its users mapped one by one, same length and order |
| GrpcServer.GetUser | internal/infrastructure/grpc/server.go:92-99 | the service's user as a message, or its error unchanged |
| GrpcServer.PatchOf | internal/infrastructure/grpc/server.go:102-111 | the patch forwarded to the service holds the eight fields of the message unchanged |
| GrpcServer.UpdateUser | internal/infrastructure/grpc/server.go:101-119 | the service patches the user named in the message; its user comes back as a message, its error unchanged |
| GrpcServer.UpdateMessageKeepsEmptyFields | internal/infrastructure/grpc/server.go:102-113 | through the service, each of the seven string fields (login, node id, avatar, url, html url, type, view type) takes the message's value when it is non-empty and keeps the stored value when it is empty; the id is kept and the admin flag is the message's |
| GrpcServer.DeleteUser | internal/infrastructure/grpc/server.go:121-132 | an empty username is a validation error "username is required"; otherwise the service's error is returned or the username echoed |
| GrpcServer.EmptyUsernameRefused | internal/infrastructure/grpc/server.go:123-125 | the refusal of an empty username does not depend on the service and carries the validation code |
| GrpcServer.OptionsReachingRepository | internal/infrastructure/grpc/server.go:55-79 | through the server and the service the limit and page are the requested ones when positive and 10 and 1 otherwise; column and direction are the server's |
| GenericRepository.Columns | internal/infrastructure/database/repositories/generic_repository.go:39-44 | there are at most as many columns as fields, and every column is a real tag (neither empty nor "-") |
| GenericRepository.Join | internal/infrastructure/database/repositories/generic_repository.go:50 | the joined text starts with the first part and ends with the last |
| GenericRepository.JoinHasEach | internal/infrastructure/database/repositories/generic_repository.go:50 | every part occurs in the joined text |
| GenericRepository.ExtractColumns | internal/infrastructure/database/repositories/generic_repository.go:35-46 | the loop yields the column tags of the fields |
| GenericRepository.ColumnsAreTheTags | internal/infrastructure/database/repositories/generic_repository.go:39-44 | a string is a column iff some field's tag is that string and neither empty nor "-"; there are no more columns than fields |
| GenericRepository.ColumnsConcat | internal/infrastructure/database/repositories/generic_repository.go:39-44 | columns keep field order: the columns of two runs of fields are the columns of each, in turn |
| GenericRepository.NewGenericRepository | internal/infrastructure/database/repositories/generic_repository.go:21-32 | the repository holds the table, the key and the columns of the struct |
| GenericRepository.BuildPlaceholders | internal/infrastructure/database/repositories/generic_repository.go:51-54 | one placeholder per column, the i-th being ":" followed by the i-th column |
| GenericRepository.Placeholders | internal/infrastructure/database/repositories/generic_repository.go:51-54 | one placeholder per column, each a colon followed by its column; distinct columns get distinct placeholders |
| GenericRepository.ConflictSet | internal/infrastructure/database/repositories/generic_repository.go:58-63 | at most one entry per column, and one for every column when the key is not among them |
| GenericRepository.BuildSetClause | internal/infrastructure/database/repositories/generic_repository.go:58-63 | the loop yields one `c = EXCLUDED.c` per non-key column, in column order |
| GenericRepository.NonKeyColumnsAreTheOthers | internal/infrastructure/database/repositories/generic_repository.go:59-62 | a column is assigned iff it is a column other than the key; every other column is assigned exactly as often as it occurs, and the key never |
| GenericRepository.NonKeyColumnsCounts | internal/infrastructure/database/repositories/generic_repository.go:59-62 | the non-key columns are the columns with every copy of the key removed, as a multiset |
| GenericRepository.ExcludedAssignmentInjective | internal/infrastructure/database/repositories/generic_repository.go:61 | distinct columns give distinct assignments |
| GenericRepository.ConflictSetSkipsKey | internal/infrastructure/database/repositories/generic_repository.go:58-63 | every column other than the key is assigned from the conflicting row, the key never is, and nothing else appears |
| GenericRepository.ConflictSetAssignsOthers | internal/infrastructure/database/repositories/generic_repository.go:58-63 | every column other than the key has its `c = EXCLUDED.c` entry |
| GenericRepository.ConflictSetOmitsKey | internal/infrastructure/database/repositories/generic_repository.go:58-63 | the key has no entry |
| GenericRepository.ConflictSetOnlyOthers | internal/infrastructure/database/repositories/generic_repository.go:58-63 | every entry assigns some column other than the key from the conflicting row |
| GenericRepository.Upsert | internal/infrastructure/database/repositories/generic_repository.go:49-69 | the query is the insert over the columns and placeholders followed by the conflict branch over the SET clause |
| GenericRepository.UpsertTextShape | internal/infrastructure/database/repositories/generic_repository.go:66-69 | the upsert names the key column as the conflict target and always ends with `updated_at = NOW()` |
| GenericRepository.UpsertText | internal/infrastructure/database/repositories/generic_repository.go:66-69 | every upsert text ends with the assignment `updated_at = NOW()`, whatever the SET clause holds |
| GenericRepository.UpsertTextHasSetEntries | internal/infrastructure/database/repositories/generic_repository.go:58-68 | every entry of the SET clause occurs in the upsert text |
| GenericRepository.UpdatedAtIsSetEntry | internal/infrastructure/database/repositories/generic_repository.go:58-63 | a non-key `updated_at` column has the entry `updated_at = EXCLUDED.updated_at` in the SET clause |
| GenericRepository.UpdatedAtAssignedTwice | internal/infrastructure/database/repositories/generic_repository.go:58-68 | when `updated_at` is a column and not the key, the text that `Upsert` builds holds `updated_at = EXCLUDED.updated_at` in its SET list and ends with `, updated_at = NOW()`: two different assignments to the same column |
| GenericRepository.UsersUpsertAssignsUpdatedAtTwice | internal/infrastructure/database/repositories/user_repository.go:16 | the users repository's upsert text holds `updated_at = EXCLUDED.updated_at`; with the `, updated_at = NOW()` ending every upsert text has (`UpsertText`), it assigns `updated_at` twice |
| GenericRepository.CorrectedAssignsEachOnce | internal/infrastructure/database/repositories/generic_repository.go:58-68 | with distinct columns, the corrected branch assigns each column at most once, `updated_at` exactly once and never the key, and still assigns every other column |
| GenericRepository.DistinctCountsAtMostOne | internal/infrastructure/database/repositories/generic_repository.go:58-63 | distinct columns each occur at most once |
| GenericRepository.CorrectedUsersUpsert | internal/infrastructure/database/repositories/user_repository.go:16 | the corrected users upsert takes `updated_at` only from `NOW()` and assigns every column at most once |
| GenericRepository.List | internal/infrastructure/database/repositories/generic_repository.go:88-90 | no filter value is bound |
| GenericRepository.ListNamesEveryColumn | internal/infrastructure/database/repositories/generic_repository.go:88-90 | the listing's text names every column of the repository and its table |
| GenericRepository.GetByField | internal/infrastructure/database/repositories/generic_repository.go:76-81 | the value is the one bound argument |
| GenericRepository.DeleteByField | internal/infrastructure/database/repositories/generic_repository.go:99-101 | the value is the one bound argument |
| GenericRepository.ValueIsOnlyBound | internal/infrastructure/database/repositories/generic_repository.go:78-81 | the statement text does not depend on the value, which is never spliced in; the lookup is the listing with `WHERE field = $1 LIMIT 1` |
| GenericRepository.FormatNatRoundTrip | internal/infrastructure/database/repositories/generic_repository.go:107 | the decimal digits of a natural number read back as that number |
| GenericRepository.FormatIntRoundTrip | internal/infrastructure/database/repositories/generic_repository.go:107 | `%v` of an integer reads back as that integer |
| GenericRepository.GetByID | internal/infrastructure/database/repositories/generic_repository.go:106-108 | the lookup by the key column with the id as its only argument, which reads back as the id |
| GenericRepository.DeleteByID | internal/infrastructure/database/repositories/generic_repository.go:111-113 | the delete by the key column with the id as its only argument, which reads back as the id |

## Left out

- Goroutines, the wait group, blocking on the channel and `time.Sleep` are left out. The pipeline runs sequentially: the producer fills the channel, then one drain stands for the whole worker pool. Sleeps are recorded as durations. `SyncUsers.UpsertOrderIrrelevant` shows that, with distinct ids, the interleaving of workers does not change the table. The channel's capacity (`usersPerPage * workerPoolSize`) is not modelled, since nothing in the sequential run blocks on it.
- The GitHub clients (HTTP, rate limiter, JSON decoding) are replaced by a script of per-call outcomes for the sync job and by the upstream's answer for `Get`.
- Redis is modelled as a map from login to user. The `user:` key prefix, JSON marshalling, the TTL and the difference between a failed read and a miss are not modelled; both fall through to the upstream.
- SQL execution is left out. The table is a map from id to user whose upsert replaces the whole row. Timestamps (`created_at`, `updated_at`, `NOW()`) are not stored, so the stored user has the nine fields of the entity.
- The repository's lookup by login picks any row with that login. `LIMIT 1` picks one the database chooses, and the model does not fix which one.
- Process wiring, environment configuration, routing, and logging to stderr are left out. A logged upsert failure is recorded as the record that failed.
- The GitHub user entity file and the entity `User` struct are not part of this model. Their fields are taken from the uses in the service, the sync job and the gRPC mapping, and the users table's column order from internal/infrastructure/database/repositories/user_repository_test.go:86-88.
- `user_repository.go` calls `BatchUpsert` and a paginated `List` that the generic repository does not define. Neither is modelled, nor is the `?`-placeholder SQL its test expects.
- In the legacy service, the cache holds a different Go type from the one passed to it, and the service interface declares `List` without options. The model ignores these type errors and gives the legacy cache the stored user.
- GrpcServer.OptionsFromRequest: the 32-bit range of the protocol's limit and page is not enforced; widening them to `int` is exact.
- GrpcServer.ToProto: the 64-bit id is modelled as an unbounded integer; widening `int` to `int64` is exact on the platforms Go supports.
- SyncUsers.RunProducer: ids and the cursor are unbounded integers; the upstream's ids fit Go's `int`.
- SyncUsers.RunProducer: the upstream is a finite script that answers an empty page past its end, so every modelled run ends. The Go loop has no bound on its rounds: an upstream that kept answering a non-empty page whose ids are all at or below the cursor would make it request the same page and resend the same records forever. `SyncUsers.StalePageKeepsCursor` shows the step that repeats, but runs that never end are not modelled.
- DomainErrors.AsDomain: only single-cause unwrapping is modelled. `errors.As` also follows `Unwrap() []error` (from `errors.Join` or several `%w` verbs) and custom `As` methods; no error in this code is built that way.
- UserController.ListUsers: gin's handling of repeated query parameters is reduced to one value per name.

## Findings

| source | as written | input that shows it | evidently intended | confidence | as-written member | corrected member |
|---|---|---|---|---|---|---|
| internal/infrastructure/database/repositories/generic_repository.go:58-68 | the SET clause assigns `col = EXCLUDED.col` for every non-key column and then appends `updated_at = NOW()` | the users repository, whose columns include `updated_at` (internal/infrastructure/database/repositories/user_repository_test.go:86-88): `updated_at` is assigned twice, which PostgreSQL rejects as a multiple assignment to the same column | `updated_at` is assigned once, from `NOW()` | not executed; high for any entity with an `updated_at` tag | GenericRepository.UsersUpsertAssignsUpdatedAtTwice | GenericRepository.CorrectedAssignsEachOnce |
| internal/service/userservice.go:72 | the legacy `Update` calls `SetUser` on the cache without checking for a nil cache, while `Get` and `Delete` check | a legacy service built without a cache, updating any existing login: the row is written, then the call panics on a nil receiver (internal/cache/redis.go:49-55) | the cache write is skipped when there is no cache, as in internal/application/services/user_service.go:109-111 | not executed; medium, since the legacy package does not compile as it stands | LegacyService.UpdateWithoutCachePanics | Services.UserService.Update |
