/** Domain entities of the persistence core and the mutation functions the
    service layer uses to build them. */
module Entities {
  import opened Wrappers
  import opened Scalars

  /** Watering status and soil condition are Go string types; only their
      "unknown" members are distinguished by the code modelled here. */
  type WateringStatus = string
  type SoilCondition = string
  type SensorStatus = string

  const WateringStatusUnknown: WateringStatus := "unknown"
  const SoilConditionUnknown: SoilCondition := "unknown"

  datatype Region = Region(id: Int32, name: string)

  datatype Image = Image(id: Int32, createdAt: Time, updatedAt: Time, url: string)

  datatype Sensor = Sensor(id: Int32, createdAt: Time, updatedAt: Time, status: SensorStatus)

  /** A decoded sensor message; its inner structure plays no part here. */
  datatype MqttPayload = MqttPayload(fields: map<string, string>)

  datatype SensorData = SensorData(id: Int32, createdAt: Time, updatedAt: Time, data: Option<MqttPayload>)

  /** A tree holds back-references to its cluster and sensor, which it does not own. */
  datatype Tree = Tree(
    id: Int32,
    createdAt: Time,
    updatedAt: Time,
    treeCluster: Option<TreeCluster>,
    sensor: Option<Sensor>,
    images: seq<Image>,
    age: Int32,
    heightAboveSeaLevel: Float64,
    plantingYear: Int32,
    species: string,
    number: Int32,
    latitude: Float64,
    longitude: Float64)

  datatype TreeCluster = TreeCluster(
    id: Int32,
    createdAt: Time,
    updatedAt: Time,
    region: Option<Region>,
    address: string,
    description: string,
    moistureLevel: Float64,
    latitude: Option<Float64>,
    longitude: Option<Float64>,
    wateringStatus: WateringStatus,
    soilCondition: SoilCondition,
    archived: bool,
    lastWatered: Option<Time>,
    trees: seq<Tree>,
    name: string)

  /** Both coordinates are present, the only case in which a position exists. */
  predicate HasLocation(tc: TreeCluster) {
    tc.latitude.Some? && tc.longitude.Some?
  }

  /** `entities.EntityFunc[T]`: a mutation of one entity value. */
  type EntityFunc<!T> = T -> T

  /** Applies the mutations in the order given: a left fold, so `fns[0]` runs first. */
  function Apply<T(!new)>(entity: T, fns: seq<EntityFunc<T>>): (r: T)
    ensures |fns| == 1 ==> r == fns[0](entity)
    ensures (forall i, t :: 0 <= i < |fns| ==> fns[i](t) == t) ==> r == entity
    decreases |fns|
  {
    if |fns| == 0 then entity else Apply(fns[0](entity), fns[1..])
  }

  /** Mutating with `fns` and then with `gns` is mutating with `fns + gns`. */
  lemma {:induction false} ApplyAppend<T(!new)>(entity: T, fns: seq<EntityFunc<T>>, gns: seq<EntityFunc<T>>)
    ensures Apply(entity, fns + gns) == Apply(Apply(entity, fns), gns)
    decreases |fns|
  {
    if |fns| == 0 {
      assert fns + gns == gns;
    } else {
      assert (fns + gns)[1..] == fns[1..] + gns;
      ApplyAppend(fns[0](entity), fns[1..], gns);
    }
  }

  /** The last mutation is applied to the result of all the others. */
  lemma ApplyLast<T(!new)>(entity: T, fns: seq<EntityFunc<T>>, g: EntityFunc<T>)
    ensures Apply(entity, fns + [g]) == g(Apply(entity, fns))
  {
    ApplyAppend(entity, fns, [g]);
  }

  /** Last write wins: when `g` sets the field seen through `field` to `v`, and
      every later mutation leaves that field alone, the result carries `v`,
      whatever the mutations before `g` wrote. */
  lemma {:induction false} LastWriteWins<T(!new), V>(entity: T, fns: seq<EntityFunc<T>>, g: EntityFunc<T>,
                                               later: seq<EntityFunc<T>>, field: T -> V, v: V)
    requires forall t :: field(g(t)) == v
    requires forall i, t :: 0 <= i < |later| ==> field(later[i](t)) == field(t)
    ensures field(Apply(entity, fns + [g] + later)) == v
  {
    ApplyAppend(entity, fns + [g], later);
    ApplyLast(entity, fns, g);
    PreservingMutations(g(Apply(entity, fns)), later, field);
  }

  /** Mutations that each leave a field alone leave it alone together. */
  lemma {:induction false} PreservingMutations<T(!new), V>(entity: T, fns: seq<EntityFunc<T>>, field: T -> V)
    requires forall i, t :: 0 <= i < |fns| ==> field(fns[i](t)) == field(t)
    ensures field(Apply(entity, fns)) == field(entity)
    decreases |fns|
  {
    if |fns| > 0 {
      assert field(fns[0](entity)) == field(entity);
      PreservingMutations(fns[0](entity), fns[1..], field);
    }
  }
}
