/** Row and parameter types of the generated query layer, and a table-backed
    stand-in for a single-row lookup. The queries themselves are not modelled:
    repositories receive each one as a function from its arguments to its outcome. */
module Sqlc {
  import opened Wrappers
  import opened Scalars
  import opened Errors
  import opened Entities

  datatype InfinityModifier = Finite | Infinity | NegativeInfinity

  /** `pgtype.Timestamp`: a wall-clock value with an infinity marker and a validity flag. */
  datatype PgTimestamp = PgTimestamp(time: Time, infinityModifier: InfinityModifier, valid: bool)

  /** A row of the image table, or the zero row a LEFT JOIN yields when no image is attached. */
  datatype ImageRow = ImageRow(id: Int32, createdAt: PgTimestamp, updatedAt: PgTimestamp, url: string)

  datatype SensorRow = SensorRow(id: Int32, createdAt: PgTimestamp, updatedAt: PgTimestamp, status: SensorStatus)

  /** A stored sensor message; `data` is the raw payload still to be decoded. */
  datatype SensorDataRow = SensorDataRow(id: Int32, sensorId: Int32, createdAt: PgTimestamp,
                                         updatedAt: PgTimestamp, data: seq<bv8>)

  datatype CreateTreeClusterParams = CreateTreeClusterParams(
    regionId: Option<Int32>,
    address: string,
    description: string,
    moistureLevel: Float64,
    wateringStatus: WateringStatus,
    soilCondition: SoilCondition,
    name: string)

  datatype SetTreeClusterLocationParams = SetTreeClusterLocationParams(
    id: Int32,
    latitude: Float64,
    longitude: Float64)

  datatype UpdateTreeClusterParams = UpdateTreeClusterParams(
    id: Int32,
    regionId: Option<Int32>,
    address: string,
    description: string,
    moistureLevel: Float64,
    wateringStatus: WateringStatus,
    soilCondition: SoilCondition,
    lastWatered: PgTimestamp,
    archived: bool)

  /** A single-row lookup by id against a table, with an optional injected
      failure that takes precedence (a closed connection, say). A missing id
      yields the driver's no-rows signal, as `QueryRow(...).Scan` does. */
  function TableLookup<R>(table: map<Int32, R>, fault: Option<Error>): Int32 -> Result<R, Error>
  {
    id => if fault.Some? then Err(fault.value) else if id in table then Ok(table[id]) else Err(PgxNoRows)
  }
}
