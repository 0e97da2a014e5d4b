# Persistence core of the green-ecolution backend, in Dafny

This project models the decision logic of the backend's PostgreSQL persistence
layer, with the database replaced by an abstract query executor. It covers:

- the **store**: the entity-kind tag it carries, `HandleError`'s translation of
  driver errors into storage errors, the `WithTx` begin/body/rollback/commit
  sequence, and the `CheckSensorExists` / `CheckImageExists` existence checks
  for optional ids;
- the **tree-cluster repository**: `Create` (default entity, left fold of
  mutation functions, insert, a location write only when both coordinates are
  set, re-fetch by the new id) and `Update` (fetch, fold, write a fixed set of
  columns, return the in-memory value);
- the **scalar mappers** `PgTimestampToTime` and `ConvertNullableImage`;
- the **sensor repository's reads**, including the all-or-nothing payload
  decoding of `GetSensorDataByID`.

Every generated query is a parameter: a function from its arguments to its
outcome (a row, an id, an error or nil). The writes a repository issues and
the ids an existence check looks up are returned as traces, so "no write
happens" and "no lookup happens" are statements about those traces.
Go's `error` values are one datatype, `Errors.Error`: the driver sentinels,
the storage sentinels, `Wrapped(message, cause)` for `errors.Wrap`, and
`Opaque(message)` for anything else. `switch err` compares values of this
type; `errors.Is` is `Errors.Is`, which walks the `Wrapped` chain.

Modules, one per file: `Wrappers` (Option, Result), `Scalars` (Int32, opaque
Time and Float64), `Errors`, `Entities` (domain entities and the mutation
fold), `Sqlc` (row and parameter types of the generated layer), `Store`,
`SqlcMapper`, `TreeClusterRepo`, `SensorRepo`.

Three behaviours of the code differ from what its callers would expect:
- A unit of work is expected to report its body's failure. After a failed
  transaction body, the code instead returns the rollback error or the
  commit's outcome, and never the body's own error. See Findings.
- A cluster's position is meant to be set as a unit. The code allows an
  entity with one coordinate; it only skips the location write.
- `Update` applies `HandleError` to whatever the repository's `GetByID`
  returns. A missing cluster is reported as the tree-cluster not-found error
  itself only when that read returns the raw no-rows signal under the
  tree-cluster tag. When the read returns the not-found error already, the
  result wraps it in an unknown-error wrapper
  (`TreeClusterRepo.UpdateMissingCluster`, `TreeClusterRepo.UpdateRetranslatesReadError`).

## Model

| member | source | states |
|---|---|---|
| Errors.Wrap | internal/storage/postgres/store/store.go:82 | a wrapped error differs from its cause, is never a not-found kind, and still matches everything the cause matches under `errors.Is` |
| Errors.Is | internal/storage/postgres/store/store.go:110 | `errors.Is` holds of an error and itself; on an error that wraps nothing it is identity; on a wrapped error it holds exactly when the target is the error itself or lies anywhere on the cause's unwrap chain |
| Store.Classify | internal/storage/postgres/store/store.go:47-83 | no-rows becomes the tag's not-found error; too-many-rows, tx-closed, commit/rollback and conn-done map to fixed storage errors whatever the tag; anything else comes back wrapped with its cause; the result is a not-found kind iff the input is exactly the no-rows sentinel, and never equals the input |
| Store.HandleError | internal/storage/postgres/store/store.go:42-45 | nil in, nil out; every non-nil error is translated into a non-nil one |
| Store.NoRowsByEntityType | internal/storage/postgres/store/store.go:49-66 | image, sensor, flowerbed and tree-cluster tags get their own not-found errors; every other tag, including tree, vehicle and unset, gets the generic one |
| Store.WrappedNoRowsStaysWrapped | internal/storage/postgres/store/store.go:48-82 | matching is by identity: a wrapped no-rows is not recognised, becomes an unknown-error wrapper that keeps it as cause, and still matches no-rows under `errors.Is` |
| Store.SetEntityType | internal/storage/postgres/store/store.go:38-40 | the store carries the new tag, and error translation afterwards is that of a store with this tag alone |
| Store.LastSetEntityTypeWins | internal/storage/postgres/store/store.go:38-50 | after any sequence of `SetEntityType` calls, error translation uses the last tag set |
| Store.WithTx | internal/storage/postgres/store/store.go:86-100 | a failed begin is returned and the body never runs; a successful body yields the commit outcome; a failed body is rolled back, and a failed rollback is returned without commit, while a successful one is followed by commit, whose outcome is returned; the steps start with begin and run in the order begin, body, rollback, commit; the result is always the begin, rollback or commit outcome, never the body's |
| Store.WithTxLosesBodyError | internal/storage/postgres/store/store.go:92-99 | a failed body with a successful rollback is reported as success when commit succeeds, and as tx-closed when commit refuses the finished transaction |
| Store.WithTxReportingBodyError | internal/storage/postgres/store/store.go:86-100 | the corrected unit of work: the body runs exactly when begin succeeds; a failed body's error is returned after a successful rollback; commit runs only after a successful body; the steps start with begin and keep the order begin, body, rollback, commit; success means every step succeeded |
| Store.WithTxDiffersOnlyAfterRollback | internal/storage/postgres/store/store.go:92-99 | for all step outcomes, the code's unit of work and the corrected one agree exactly when it is not the case that the body fails and its rollback succeeds; in that case only the code's version commits |
| Store.CheckSensorExists | internal/storage/postgres/store/store.go:106-120 | no id: success and no lookup; otherwise exactly one lookup of that id; success iff the lookup succeeds; a no-rows anywhere on the error chain gives the sensor not-found error whatever the tag; other failures are translated; the only not-found kind it can return is the sensor's |
| Store.CheckImageExists | internal/storage/postgres/store/store.go:122-136 | the same contract for images, with the image not-found error |
| Store.CheckSensorExistsAgainstTable | internal/storage/postgres/store/store.go:106-120 | against a table-backed lookup, the check fails, with the sensor not-found error, exactly when an id is given that the table lacks |
| Store.CheckImageExistsAgainstTable | internal/storage/postgres/store/store.go:122-136 | the same for images |
| Entities.Apply | internal/storage/postgres/treecluster/create.go:28-31 | one mutation is applied to the entity; mutations that change nothing leave the entity as it was |
| Entities.ApplyAppend | internal/storage/postgres/treecluster/create.go:28-31 | folding `fns + gns` is folding `fns` and then `gns`: the mutations run in list order |
| Entities.ApplyLast | internal/storage/postgres/treecluster/update.go:17-19 | the last mutation applies to the result of all earlier ones |
| Entities.PreservingMutations | internal/storage/postgres/treecluster/create.go:28-31 | mutations that each leave a field alone leave it alone together |
| Entities.LastWriteWins | internal/storage/postgres/treecluster/create.go:28-31 | a field set by a mutation and left alone by every later one ends with that mutation's value, whatever earlier mutations wrote |
| TreeClusterRepo.DefaultTreeCluster | internal/storage/postgres/treecluster/create.go:10-25 | the starting entity: no region, position or last-watered time; empty strings; zero moisture; unknown watering status and soil condition; not archived; no trees; id 0 |
| TreeClusterRepo.CreateParams | internal/storage/postgres/treecluster/create.go:43-56 | the insert's region id is nil exactly when the region is, and is otherwise its id; address, description, moisture, statuses and name are copied |
| TreeClusterRepo.CreateParamsIgnore | internal/storage/postgres/treecluster/create.go:48-56 | archived flag, last-watered time, trees, coordinates and id are not part of the insert |
| TreeClusterRepo.CreateEntity | internal/storage/postgres/treecluster/create.go:42-75 | the insert comes first; the location write follows iff the insert succeeded and both coordinates are set, and carries the new id; either write's failure is returned; success returns the inserted id |
| TreeClusterRepo.Create | internal/storage/postgres/treecluster/create.go:27-40 | the default entity with the mutations folded in order is what gets inserted; a location write happens iff the insert succeeded and both coordinates are set; a write failure is translated by the store and no entity is returned; on success the result is the re-fetch by the new id |
| TreeClusterRepo.CreateWithPartialPositionWritesNoLocation | internal/storage/postgres/treecluster/create.go:63-72 | with at most one coordinate set, only the insert is issued |
| TreeClusterRepo.CreateKeepsInsertAfterFailedLocation | internal/storage/postgres/treecluster/create.go:58-72 | a failed location write leaves the insert issued, not undone, and `Create` returns the translated location error |
| TreeClusterRepo.CreateWithAddressAndMoisture | internal/storage/postgres/treecluster/create.go:10-56 | creating with only an address and a moisture level inserts no region, the unknown statuses and empty description and name, and writes no position |
| TreeClusterRepo.UpdateParams | internal/storage/postgres/treecluster/update.go:29-43 | the update writes id, region id, address, description, moisture, statuses, converted last-watered time and archived flag of the mutated cluster |
| TreeClusterRepo.UpdateParamsIgnore | internal/storage/postgres/treecluster/update.go:30-40 | name, coordinates and trees are not written |
| TreeClusterRepo.Update | internal/storage/postgres/treecluster/update.go:11-27 | a failed read is translated and nothing is written; otherwise exactly one update of the mutated cluster is issued, its failure is returned untranslated, and success returns the mutated in-memory value without a re-fetch; a region after mutation is required |
| TreeClusterRepo.UpdateMissingCluster | internal/storage/postgres/treecluster/update.go:12-15 | for a missing cluster under the tree-cluster tag, no write is issued and the error is, or wraps, the tree-cluster not-found error |
| TreeClusterRepo.UpdateRetranslatesReadError | internal/storage/postgres/treecluster/update.go:12-15 | a read error that is already a storage not-found error comes back wrapped as an unknown error |
| TreeClusterRepo.UpdateRejectsRegionlessCluster | internal/storage/postgres/treecluster/update.go:32 | a stored cluster without a region, updated with no mutation, falls outside `Update`'s precondition (the Go code dereferences a nil region) |
| TreeClusterRepo.UpdateParamsNullableRegion | internal/storage/postgres/treecluster/update.go:29-43 | corrected parameters: the region id is nil exactly when the region is; every other column is copied as `UpdateParams` copies it, and the whole is equal to `UpdateParams` when a region is set |
| TreeClusterRepo.UpdateAnyRegion | internal/storage/postgres/treecluster/update.go:11-27 | corrected update: defined for every fetched cluster and equal to `Update` wherever that is defined; a failed read is translated and nothing is written; otherwise exactly one write of the nullable-region parameters of the mutated cluster, whose region id is nil exactly when its region is; a failed write is returned untranslated and success returns the mutated in-memory value |
| TreeClusterRepo.UpdateLastAddressWins | internal/storage/postgres/treecluster/update.go:17-26 | when the last mutation sets the address, the written row and the returned value carry it |
| SqlcMapper.PgTimestampToTime | internal/utils/sqlc_mapper.go:11-13 | the result is the wall-clock time whatever the validity flag and infinity marker |
| SqlcMapper.PgTimestampIgnoresValidity | internal/utils/sqlc_mapper.go:11-13 | timestamps with the same wall-clock time read the same, valid or not |
| SqlcMapper.PgTimestampRoundTrip | internal/utils/sqlc_mapper.go:11-13 | a time survives a trip through a valid timestamp, and a valid finite timestamp survives a trip through its time |
| SqlcMapper.ConvertNullableImage | internal/utils/sqlc_mapper.go:16-26 | nil iff the row id is 0; otherwise id and URL are copied and both timestamps are their wall-clock parts |
| SqlcMapper.ImageRoundTrip | internal/utils/sqlc_mapper.go:16-26 | an image with non-zero id survives a trip through its row, one with id 0 is lost, and a row with non-zero id and valid finite timestamps survives a trip through its image |
| SensorRepo.FromSqlList | internal/storage/postgres/sensor/get.go:18 | the list mapper keeps the row count and maps row i to element i |
| SensorRepo.GetAll | internal/storage/postgres/sensor/get.go:12-19 | the query's error is returned unchanged; otherwise one sensor per row, in row order |
| SensorRepo.GetByID | internal/storage/postgres/sensor/get.go:21-28 | the query's error is returned unchanged; otherwise the mapped row |
| SensorRepo.GetStatusByID | internal/storage/postgres/sensor/get.go:30-37 | succeeds iff `GetByID` does, with that sensor's status, and otherwise returns the same error |
| SensorRepo.GetSensorByStatus | internal/storage/postgres/sensor/get.go:39-46 | the query's error is returned unchanged; otherwise one sensor per row, in row order |
| SensorRepo.SensorReadsKeepDriverErrors | internal/storage/postgres/sensor/get.go:21-37 | a missing sensor read through the repository is the raw no-rows signal, not a not-found kind, while the store's existence check on the same query reports the sensor not-found error |
| SensorRepo.GetByIDAgreesWithExistenceCheck | internal/storage/postgres/sensor/get.go:21-28 | for every query outcome and tag, reading a sensor succeeds exactly when the store's existence check on the same query passes |
| SensorRepo.GetAllAgreesWithGetByID | internal/storage/postgres/sensor/get.go:12-28 | when each listed row is what the single-row query returns for its id, element i of `GetAll` is `GetByID` of row i's id |
| SensorRepo.GetSensorByStatusWithinGetAll | internal/storage/postgres/sensor/get.go:39-46 | when the status query returns the listed rows with that status and the row mapper keeps the status, the sensors found by status are exactly the listed sensors of that status |
| SensorRepo.DecodeAll | internal/storage/postgres/sensor/get.go:54-63 | succeeds iff every payload decodes, then element i is row i mapped with its decoded payload; otherwise fails with the wrapped error of the first row that does not decode |
| SensorRepo.GetSensorDataByID | internal/storage/postgres/sensor/get.go:48-66 | the query's error is returned unchanged; otherwise the result is exactly `DecodeAll` of the rows: every row decoded in order, or no list and the wrapped error of the first row that fails |

## Left out

- Logging through `slog` and the stack capture in `HandleError` are side effects with no bearing on any result.
- `NewStore`, `Close`, the pgx connection, contexts and cancellation are not modelled. The store is reduced to its entity tag.
- The entity tag is Go's `EntityType` string. Any string can be set; only the six named constants and the unset "" are named here.
- The generated sqlc queries, the generated mappers (`FromSql`, `FromSqlSensorData`), `mapper.MapSensorData`, `utils.TimeToPgTimestamp` and the tree-cluster repository's own `GetByID` are not part of this model. Each is a parameter whose outcome is an input. `FromSqlList` is modelled as the element-wise map of `FromSql`, one element per row, in row order.
- `WithTx`: the transaction handle given to the body, and what rollback and commit do to stored data, belong to the database. Begin, body, rollback and commit are reduced to their outcomes.
- Store.WithTx: commit's outcome after a successful rollback is an input and is left unconstrained. The driver most likely refuses to commit a finished transaction and reports its tx-closed error; the model also admits a commit that reports success.
- The store is one value shared by all seven repositories, built once in storage.go:18. The tag `HandleError` reads in `Create` and `Update` is whatever any repository set last, and concurrent requests may change it between setting and reading. The model takes the store as a parameter with any tag, which covers every such interleaving, but does not model the sharing or the race.
- SqlcMapper.PgTimestampRoundTrip: `ValidTimestamp` stands in for `utils.TimeToPgTimestamp` on a non-nil time. The real conversion is not part of this model; in `Update` it is the unconstrained `toPgTimestamp` parameter. The same holds for `ImageToRow` in SqlcMapper.ImageRoundTrip.
- `Sqlc.TableLookup` is a table-backed stand-in for a single-row query, used only to state the existence checks against a table. It is not part of the source.
- TreeClusterRepo.Update: the nil dereference of a missing region (a Go panic) is modelled as a precondition; see Findings.
- SensorRepo.GetSensorByStatus: the Go code dereferences a status pointer unconditionally. A nil status panics and is left out; the status is passed by value.
- `Create` assigns the new id to the in-memory entity. That value is then discarded in favour of the re-fetch, so the assignment is not modelled.
- Float semantics of moisture levels and coordinates are not modelled: the values are opaque bit patterns that are only copied. Times are opaque instants.
- The duration, URL and IP converters of the scalar mapper are outside the modelled code, so their round trips are not stated.

## Findings

| source | as written | input that shows it | evidently intended | confidence | as-written member | corrected member |
|---|---|---|---|---|---|---|
| internal/storage/postgres/store/store.go:92-99 | after a failed body and a successful rollback, commit is still called and its outcome returned | body fails with error E and rollback succeeds: the result is nil if commit reports success, or the driver's tx-closed error, never E | return E after the rollback; commit only after a successful body | high; not executed | Store.WithTxLosesBodyError | Store.WithTxReportingBodyError |
| internal/storage/postgres/treecluster/update.go:32 | the update parameters take the address of `tc.Region.ID` without checking `tc.Region` | a cluster created with no region, then updated with no mutation: the region is nil and the dereference panics | a nil region id for a cluster without region, as `createEntity` does at create.go:43-46 | medium; not executed | TreeClusterRepo.UpdateRejectsRegionlessCluster | TreeClusterRepo.UpdateAnyRegion |
