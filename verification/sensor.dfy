/** The sensor repository's reads. None of them translates errors: whatever
    the query reports is handed back as it is. */
module SensorRepo {
  import opened Wrappers
  import opened Scalars
  import opened Errors
  import opened Entities
  import opened Sqlc
  import Store

  /** The outcomes of the generated sensor queries. */
  datatype SensorQueries = SensorQueries(
    getAllSensors: Result<seq<SensorRow>, Error>,
    getSensorById: Int32 -> Result<SensorRow, Error>,
    getSensorByStatus: SensorStatus -> Result<seq<SensorRow>, Error>,
    getSensorDataBySensorId: Int32 -> Result<seq<SensorDataRow>, Error>)

  /** The generated row mappers and the payload decoder, taken as given. */
  datatype SensorMapper = SensorMapper(
    fromSql: SensorRow -> Sensor,
    fromSqlSensorData: SensorDataRow -> SensorData,
    mapSensorData: seq<bv8> -> Result<MqttPayload, Error>)

  const SensorDataErrorMessage: string := "failed to map sensor data"

  /** The list mapper: the row mapper applied to each row, in row order. */
  function FromSqlList(m: SensorMapper, rows: seq<SensorRow>): (sensors: seq<Sensor>)
    ensures |sensors| == |rows|
    ensures forall i :: 0 <= i < |rows| ==> sensors[i] == m.fromSql(rows[i])
  {
    seq(|rows|, i requires 0 <= i < |rows| => m.fromSql(rows[i]))
  }

  /** Lists the query's rows through the list mapper, or hands back its error. */
  function ListOrError(m: SensorMapper, rows: Result<seq<SensorRow>, Error>): Result<seq<Sensor>, Error> {
    match rows
    case Err(e) => Err(e)
    case Ok(rs) => Ok(FromSqlList(m, rs))
  }

  function GetAll(q: SensorQueries, m: SensorMapper): (r: Result<seq<Sensor>, Error>)
    ensures q.getAllSensors.Err? ==> r == Err(q.getAllSensors.error)
    ensures q.getAllSensors.Ok? ==>
              && r.Ok?
              && |r.value| == |q.getAllSensors.value|
              && forall i :: 0 <= i < |r.value| ==> r.value[i] == m.fromSql(q.getAllSensors.value[i])
  {
    ListOrError(m, q.getAllSensors)
  }

  function GetByID(q: SensorQueries, m: SensorMapper, id: Int32): (r: Result<Sensor, Error>)
    ensures q.getSensorById(id).Err? ==> r == Err(q.getSensorById(id).error)
    ensures q.getSensorById(id).Ok? ==> r == Ok(m.fromSql(q.getSensorById(id).value))
  {
    match q.getSensorById(id)
    case Err(e) => Err(e)
    case Ok(row) => Ok(m.fromSql(row))
  }

  function GetStatusByID(q: SensorQueries, m: SensorMapper, id: Int32): (r: Result<SensorStatus, Error>)
    ensures r.Ok? <==> GetByID(q, m, id).Ok?
    ensures r.Ok? ==> r.value == GetByID(q, m, id).value.status
    ensures r.Err? ==> r.error == GetByID(q, m, id).error
  {
    match GetByID(q, m, id)
    case Err(e) => Err(e)
    case Ok(sensor) => Ok(sensor.status)
  }

  /** The Go code dereferences its status argument unconditionally; a nil
      status is left out here (it panics) and the status is passed by value. */
  function GetSensorByStatus(q: SensorQueries, m: SensorMapper, status: SensorStatus): (r: Result<seq<Sensor>, Error>)
    ensures q.getSensorByStatus(status).Err? ==> r == Err(q.getSensorByStatus(status).error)
    ensures q.getSensorByStatus(status).Ok? ==>
              && r.Ok?
              && |r.value| == |q.getSensorByStatus(status).value|
              && forall i :: 0 <= i < |r.value| ==> r.value[i] == m.fromSql(q.getSensorByStatus(status).value[i])
  {
    ListOrError(m, q.getSensorByStatus(status))
  }

  /** A missing sensor read through the repository is the driver's no-rows
      signal itself, where the store's existence check on the same query
      reports the sensor not-found error. */
  lemma SensorReadsKeepDriverErrors(s: Store.Store, q: SensorQueries, m: SensorMapper, id: Int32)
    requires q.getSensorById(id) == Err(PgxNoRows)
    ensures GetByID(q, m, id) == Err(PgxNoRows)
    ensures GetStatusByID(q, m, id) == Err(PgxNoRows)
    ensures !IsNotFoundKind(GetByID(q, m, id).error)
    ensures Store.CheckSensorExists(s, Some(id), q.getSensorById).err == Some(SensorNotFound)
  {
  }

  /** Reading a sensor succeeds exactly when the store's existence check on
      the same query passes, whatever the store's tag. */
  lemma GetByIDAgreesWithExistenceCheck(s: Store.Store, q: SensorQueries, m: SensorMapper, id: Int32)
    ensures GetByID(q, m, id).Ok? <==> Store.CheckSensorExists(s, Some(id), q.getSensorById).err.None?
  {
  }

  /** When each listed row is what the single-row query returns for its id,
      element i of the list is the sensor read back by row i's id. */
  lemma GetAllAgreesWithGetByID(q: SensorQueries, m: SensorMapper)
    requires q.getAllSensors.Ok?
    requires forall i :: 0 <= i < |q.getAllSensors.value| ==>
               q.getSensorById(q.getAllSensors.value[i].id) == Ok(q.getAllSensors.value[i])
    ensures GetAll(q, m).Ok?
    ensures forall i :: 0 <= i < |GetAll(q, m).value| ==>
              GetByID(q, m, q.getAllSensors.value[i].id) == Ok(GetAll(q, m).value[i])
  {
  }

  /** The rows of `rows` whose status is `status`, in their original order. */
  function RowsWithStatus(rows: seq<SensorRow>, status: SensorStatus): (r: seq<SensorRow>)
    ensures forall x :: x in r ==> x in rows && x.status == status
    ensures forall x :: x in rows && x.status == status ==> x in r
    decreases |rows|
  {
    if |rows| == 0 then []
    else (if rows[0].status == status then [rows[0]] else []) + RowsWithStatus(rows[1..], status)
  }

  /** When the status query returns the listed rows with that status and the
      row mapper keeps a row's status, every sensor found by status has that
      status and is among the listed sensors, and every listed sensor with a
      row of that status is found. */
  lemma GetSensorByStatusWithinGetAll(q: SensorQueries, m: SensorMapper, status: SensorStatus)
    requires q.getAllSensors.Ok?
    requires q.getSensorByStatus(status) == Ok(RowsWithStatus(q.getAllSensors.value, status))
    requires forall row :: m.fromSql(row).status == row.status
    ensures GetSensorByStatus(q, m, status).Ok? && GetAll(q, m).Ok?
    ensures forall x :: x in GetSensorByStatus(q, m, status).value ==> x.status == status && x in GetAll(q, m).value
    ensures forall i :: 0 <= i < |q.getAllSensors.value| && q.getAllSensors.value[i].status == status ==>
              GetAll(q, m).value[i] in GetSensorByStatus(q, m, status).value
  {
  }

  // ------------------------------------------------------------ sensor data

  /** The row's payload decodes. */
  predicate Decodes(m: SensorMapper, row: SensorDataRow) {
    m.mapSensorData(row.data).Ok?
  }

  /** The domain value of a row whose payload decodes: the mapped row with its
      payload replaced by the decoded one. */
  function Decoded(m: SensorMapper, row: SensorDataRow): SensorData
    requires Decodes(m, row)
  {
    m.fromSqlSensorData(row).(data := Some(m.mapSensorData(row.data).value))
  }

  /** Decodes every row in order, failing at the first row whose payload does
      not decode. */
  function DecodeAll(m: SensorMapper, rows: seq<SensorDataRow>): (r: Result<seq<SensorData>, Error>)
    ensures r.Ok? <==> forall i :: 0 <= i < |rows| ==> Decodes(m, rows[i])
    ensures r.Ok? ==> |r.value| == |rows| && forall i :: 0 <= i < |rows| ==> r.value[i] == Decoded(m, rows[i])
    ensures r.Err? ==> exists k :: 0 <= k < |rows| && !Decodes(m, rows[k])
                                   && (forall j :: 0 <= j < k ==> Decodes(m, rows[j]))
                                   && r.error == Wrapped(SensorDataErrorMessage, m.mapSensorData(rows[k].data).error)
    decreases |rows|
  {
    if |rows| == 0 then Ok([])
    else if !Decodes(m, rows[0]) then Err(Wrap(m.mapSensorData(rows[0].data).error, SensorDataErrorMessage))
    else match DecodeAll(m, rows[1..])
      case Err(e) => Err(e)
      case Ok(rest) => Ok([Decoded(m, rows[0])] + rest)
  }

  /** `GetSensorDataByID`: the query's error unchanged, or the rows decoded as
      `DecodeAll` does: all of them, element i from row i, or no list at all. */
  method GetSensorDataByID(q: SensorQueries, m: SensorMapper, id: Int32) returns (r: Result<seq<SensorData>, Error>)
    ensures q.getSensorDataBySensorId(id).Err? ==> r == Err(q.getSensorDataBySensorId(id).error)
    ensures q.getSensorDataBySensorId(id).Ok? ==> r == DecodeAll(m, q.getSensorDataBySensorId(id).value)
  {
    var fetched := q.getSensorDataBySensorId(id);
    if fetched.Err? {
      return Err(fetched.error);
    }
    var rows := fetched.value;
    var domainData: seq<SensorData> := [];
    var i := 0;
    while i < |rows|
      invariant 0 <= i <= |rows|
      invariant |domainData| == i
      invariant forall j :: 0 <= j < i ==> Decodes(m, rows[j]) && domainData[j] == Decoded(m, rows[j])
    {
      var entry := m.fromSqlSensorData(rows[i]);
      var data := m.mapSensorData(rows[i].data);
      if data.Err? {
        return Err(Wrap(data.error, SensorDataErrorMessage));
      }
      domainData := domainData + [entry.(data := Some(data.value))];
      i := i + 1;
    }
    assert DecodeAll(m, rows).Ok?;
    assert domainData == DecodeAll(m, rows).value;
    return Ok(domainData);
  }
}
