/** The store every repository goes through: the current entity tag, the
    translation of driver errors into storage errors, the transaction helper
    and the existence checks for foreign references. */
module Store {
  import opened Wrappers
  import opened Scalars
  import opened Errors
  import opened Sqlc

  /** A Go string type; any string can be stored, the six below are named. */
  type EntityType = string

  const SensorType: EntityType := "sensor"
  const ImageType: EntityType := "image"
  const FlowerbedType: EntityType := "flowerbed"
  const TreeClusterType: EntityType := "treecluster"
  const TreeType: EntityType := "tree"
  const VehicleType: EntityType := "vehicle"

  /** The tag of a store nobody has tagged yet: the string zero value. */
  const UnsetType: EntityType := ""

  /** The connection and generated queries are not modelled: what remains of
      the store is the tag that error translation reads. */
  datatype Store = Store(entityType: EntityType)

  /** Tags the store; the tag is all a store holds, so nothing else changes. */
  function SetEntityType(s: Store, entityType: EntityType): (r: Store)
    ensures r.entityType == entityType
    ensures forall err :: Classify(r, err) == Classify(Store(entityType), err)
  {
    s.(entityType := entityType)
  }

  /** Tags a store once per element of `types`, in order. */
  function SetEntityTypes(s: Store, types: seq<EntityType>): Store
    decreases |types|
  {
    if |types| == 0 then s else SetEntityTypes(SetEntityType(s, types[0]), types[1..])
  }

  /** The tags with a dedicated not-found error; every other tag gets the generic one. */
  const NotFoundByType: map<EntityType, Error> :=
    map[ImageType := ImageNotFound, SensorType := SensorNotFound,
        FlowerbedType := FlowerbedNotFound, TreeClusterType := TreeClusterNotFound]

  /** Driver errors with a fixed storage counterpart, whatever the tag. */
  const FixedTranslations: map<Error, Error> :=
    map[PgxTooManyRows := ToManyRows, PgxTxClosed := TxClosed,
        PgxTxCommitRollback := TxCommitRollback, SqlConnDone := ConnectionClosed]

  const UnknownErrorMessage: string := "unknown error in postgres store"

  /** The not-found error a no-rows signal becomes under `entityType`. */
  function NotFoundFor(entityType: EntityType): Error {
    if entityType in NotFoundByType then NotFoundByType[entityType] else EntityNotFound
  }

  /** `HandleError` on a non-nil error. The driver sentinels are matched by
      identity, so a no-rows signal wrapped in another error is not recognised
      and ends up, like every other error, wrapped with its cause kept. */
  function Classify(s: Store, err: Error): (r: Error)
    ensures err == PgxNoRows ==> r == NotFoundFor(s.entityType)
    ensures err in FixedTranslations ==> r == FixedTranslations[err]
    ensures err != PgxNoRows && err !in FixedTranslations ==> r == Wrap(err, UnknownErrorMessage)
    ensures IsNotFoundKind(r) <==> err == PgxNoRows
    ensures r != err
  {
    match err
    case PgxNoRows =>
      if s.entityType == ImageType then ImageNotFound
      else if s.entityType == SensorType then SensorNotFound
      else if s.entityType == FlowerbedType then FlowerbedNotFound
      else if s.entityType == TreeClusterType then TreeClusterNotFound
      else EntityNotFound
    case PgxTooManyRows => ToManyRows
    case PgxTxClosed => TxClosed
    case PgxTxCommitRollback => TxCommitRollback
    case SqlConnDone => ConnectionClosed
    case _ => Wrapped(UnknownErrorMessage, err)
  }

  /** `HandleError`: nil stays nil, every error is translated. */
  function HandleError(s: Store, err: Option<Error>): (r: Option<Error>)
    ensures r.None? <==> err.None?
    ensures err.Some? ==> r == Some(Classify(s, err.value))
  {
    match err
    case None => None
    case Some(e) => Some(Classify(s, e))
  }

  /** The attribution of a no-rows signal depends on the tag alone: the four
      dedicated kinds for their own tags, the generic one for every other tag,
      including the tree, vehicle and unset tags. */
  lemma NoRowsByEntityType(s: Store)
    ensures s.entityType == ImageType ==> Classify(s, PgxNoRows) == ImageNotFound
    ensures s.entityType == SensorType ==> Classify(s, PgxNoRows) == SensorNotFound
    ensures s.entityType == FlowerbedType ==> Classify(s, PgxNoRows) == FlowerbedNotFound
    ensures s.entityType == TreeClusterType ==> Classify(s, PgxNoRows) == TreeClusterNotFound
    ensures s.entityType !in {ImageType, SensorType, FlowerbedType, TreeClusterType} ==>
              Classify(s, PgxNoRows) == EntityNotFound
  {
  }

  /** A no-rows signal inside another error is not recognised: the result is an
      unknown-error wrapper, not a not-found kind, and the signal is still on
      its unwrap chain. */
  lemma WrappedNoRowsStaysWrapped(s: Store, message: string)
    ensures !IsNotFoundKind(Classify(s, Wrapped(message, PgxNoRows)))
    ensures Classify(s, Wrapped(message, PgxNoRows)).cause == Wrapped(message, PgxNoRows)
    ensures Is(Classify(s, Wrapped(message, PgxNoRows)), PgxNoRows)
  {
  }

  /** Error translation reads the tag of the most recent `SetEntityType`. */
  lemma {:induction false} LastSetEntityTypeWins(s: Store, types: seq<EntityType>, err: Error)
    requires |types| > 0
    ensures SetEntityTypes(s, types).entityType == types[|types| - 1]
    ensures Classify(SetEntityTypes(s, types), err) == Classify(Store(types[|types| - 1]), err)
    decreases |types|
  {
    if |types| > 1 {
      LastSetEntityTypeWins(SetEntityType(s, types[0]), types[1..], err);
    }
  }

  // ---------------------------------------------------------------- transactions

  datatype TxEvent = Begin | RunBody | Rollback | Commit

  /** The position of each step in a unit of work: begin, body, rollback, commit. */
  function Step(e: TxEvent): nat {
    match e
    case Begin => 0
    case RunBody => 1
    case Rollback => 2
    case Commit => 3
  }


  /** What a transactional unit of work returned, and the steps it took. */
  datatype TxRun = TxRun(result: Option<Error>, events: seq<TxEvent>)

  /** `WithTx`, with the outcome of each step as an input: `begin`, `body`,
      `rollback` and `commit` are the errors (or nil) those calls return.
      After a failed body whose rollback succeeds, commit is still called and
      its outcome returned; the body's own error is never returned. */
  function WithTx(begin: Option<Error>, body: Option<Error>, rollback: Option<Error>, commit: Option<Error>): (r: TxRun)
    ensures begin.Some? ==> r.result == begin
    ensures RunBody in r.events <==> begin.None?
    ensures Rollback in r.events <==> begin.None? && body.Some?
    ensures Commit in r.events <==> begin.None? && (body.None? || rollback.None?)
    ensures begin.None? && body.None? ==> r.result == commit
    ensures begin.None? && body.Some? && rollback.Some? ==> r.result == rollback
    ensures begin.None? && body.Some? && rollback.None? ==> r.result == commit
    ensures r.result == begin || r.result == rollback || r.result == commit
    ensures |r.events| > 0 && r.events[0] == Begin
    ensures forall i, j :: 0 <= i < j < |r.events| ==> Step(r.events[i]) < Step(r.events[j])
  {
    if begin.Some? then TxRun(begin, [Begin])
    else if body.Some? && rollback.Some? then TxRun(rollback, [Begin, RunBody, Rollback])
    else if body.Some? then TxRun(commit, [Begin, RunBody, Rollback, Commit])
    else TxRun(commit, [Begin, RunBody, Commit])
  }

  /** The body's failure is lost: a failed body whose rollback succeeds is
      reported with the commit's outcome, which is nil when commit reports
      success and the driver's tx-closed error when it refuses a finished
      transaction. */
  lemma WithTxLosesBodyError(cause: Error)
    ensures WithTx(None, Some(cause), None, None).result == None
    ensures WithTx(None, Some(cause), None, Some(PgxTxClosed)).result == Some(PgxTxClosed)
    ensures cause != PgxTxClosed ==> WithTx(None, Some(cause), None, Some(PgxTxClosed)).result != Some(cause)
  {
  }

  /** The unit of work as its callers expect it: a failed body is rolled back
      and its error returned (unless the rollback itself fails), and commit is
      only attempted after a successful body. */
  function WithTxReportingBodyError(begin: Option<Error>, body: Option<Error>, rollback: Option<Error>, commit: Option<Error>): (r: TxRun)
    ensures begin.Some? ==> r.result == begin && RunBody !in r.events
    ensures Commit in r.events <==> begin.None? && body.None?
    ensures Rollback in r.events <==> begin.None? && body.Some?
    ensures begin.None? && body.Some? ==> r.result.Some?
    ensures begin.None? && body.Some? && rollback.None? ==> r.result == body
    ensures begin.None? && body.Some? && rollback.Some? ==> r.result == rollback
    ensures r.result.None? <==> begin.None? && body.None? && commit.None?
    ensures RunBody in r.events <==> begin.None?
    ensures |r.events| > 0 && r.events[0] == Begin
    ensures forall i, j :: 0 <= i < j < |r.events| ==> Step(r.events[i]) < Step(r.events[j])
  {
    if begin.Some? then TxRun(begin, [Begin])
    else if body.Some? && rollback.Some? then TxRun(rollback, [Begin, RunBody, Rollback])
    else if body.Some? then TxRun(body, [Begin, RunBody, Rollback])
    else TxRun(commit, [Begin, RunBody, Commit])
  }

  /** The two units of work agree on every input except one: a failed body
      whose rollback succeeds. There the code goes on to commit, and the
      corrected version reports the body's error. */
  lemma WithTxDiffersOnlyAfterRollback(begin: Option<Error>, body: Option<Error>, rollback: Option<Error>, commit: Option<Error>)
    ensures WithTx(begin, body, rollback, commit) == WithTxReportingBodyError(begin, body, rollback, commit)
            <==> !(begin.None? && body.Some? && rollback.None?)
    ensures begin.None? && body.Some? && rollback.None? ==>
              && Commit in WithTx(begin, body, rollback, commit).events
              && Commit !in WithTxReportingBodyError(begin, body, rollback, commit).events
  {
  }

  // ---------------------------------------------------------- existence checks

  /** The outcome of an existence check and the ids it looked up. */
  datatype Checked = Checked(err: Option<Error>, lookups: seq<Int32>)

  /** The shared shape of the existence checks: nothing to check without an
      id; a missing row (anywhere on the unwrap chain) is `notFound`; any
      other lookup failure goes through error translation. */
  function CheckExists<R>(s: Store, id: Option<Int32>, lookup: Int32 -> Result<R, Error>, notFound: Error): Checked {
    match id
    case None => Checked(None, [])
    case Some(i) =>
      match lookup(i)
      case Ok(_) => Checked(None, [i])
      case Err(e) => if Is(e, PgxNoRows) then Checked(Some(notFound), [i]) else Checked(HandleError(s, Some(e)), [i])
  }

  function CheckSensorExists(s: Store, sensorId: Option<Int32>, getSensorById: Int32 -> Result<SensorRow, Error>): (r: Checked)
    ensures sensorId.None? ==> r == Checked(None, [])
    ensures sensorId.Some? ==> r.lookups == [sensorId.value]
    ensures r.err.None? <==> sensorId.None? || getSensorById(sensorId.value).Ok?
    ensures sensorId.Some? && getSensorById(sensorId.value).Err? && Is(getSensorById(sensorId.value).error, PgxNoRows) ==>
              r.err == Some(SensorNotFound)
    ensures sensorId.Some? && getSensorById(sensorId.value).Err? && !Is(getSensorById(sensorId.value).error, PgxNoRows) ==>
              r.err == Some(Classify(s, getSensorById(sensorId.value).error))
    ensures r.err.Some? && IsNotFoundKind(r.err.value) ==> r.err == Some(SensorNotFound)
  {
    CheckExists(s, sensorId, getSensorById, SensorNotFound)
  }

  function CheckImageExists(s: Store, imageId: Option<Int32>, getImageById: Int32 -> Result<ImageRow, Error>): (r: Checked)
    ensures imageId.None? ==> r == Checked(None, [])
    ensures imageId.Some? ==> r.lookups == [imageId.value]
    ensures r.err.None? <==> imageId.None? || getImageById(imageId.value).Ok?
    ensures imageId.Some? && getImageById(imageId.value).Err? && Is(getImageById(imageId.value).error, PgxNoRows) ==>
              r.err == Some(ImageNotFound)
    ensures imageId.Some? && getImageById(imageId.value).Err? && !Is(getImageById(imageId.value).error, PgxNoRows) ==>
              r.err == Some(Classify(s, getImageById(imageId.value).error))
    ensures r.err.Some? && IsNotFoundKind(r.err.value) ==> r.err == Some(ImageNotFound)
  {
    CheckExists(s, imageId, getImageById, ImageNotFound)
  }

  /** Against a table-backed lookup, a sensor check fails exactly for an id
      absent from the table, and then with the sensor not-found error whatever
      the store's tag. */
  lemma CheckSensorExistsAgainstTable(s: Store, sensorId: Option<Int32>, table: map<Int32, SensorRow>)
    ensures CheckSensorExists(s, sensorId, TableLookup(table, None)).err ==
              (if sensorId.Some? && sensorId.value !in table then Some(SensorNotFound) else None)
  {
  }

  /** The same for images. */
  lemma CheckImageExistsAgainstTable(s: Store, imageId: Option<Int32>, table: map<Int32, ImageRow>)
    ensures CheckImageExists(s, imageId, TableLookup(table, None)).err ==
              (if imageId.Some? && imageId.value !in table then Some(ImageNotFound) else None)
  {
  }
}
