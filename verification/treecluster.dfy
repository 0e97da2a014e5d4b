/** The tree-cluster repository's Create and Update: a mutation fold over a
    starting entity, projected into write parameters and issued as writes. */
module TreeClusterRepo {
  import opened Wrappers
  import opened Scalars
  import opened Errors
  import opened Entities
  import opened Sqlc
  import Store

  /** A statement the repository sends to the database. */
  datatype Write =
    | Insert(create: CreateTreeClusterParams)
    | Locate(location: SetTreeClusterLocationParams)
    | Modify(update: UpdateTreeClusterParams)

  /** The database as the repository sees it: the outcome of each generated
      write, and the repository's own `GetByID`, which is not part of this
      model and is taken as given. */
  datatype Executor = Executor(
    createTreeCluster: CreateTreeClusterParams -> Result<Int32, Error>,
    setTreeClusterLocation: SetTreeClusterLocationParams -> Option<Error>,
    updateTreeCluster: UpdateTreeClusterParams -> Option<Error>,
    getById: Int32 -> Result<TreeCluster, Error>)

  /** What an operation returned and the writes it issued, in order. */
  datatype Run<T> = Run(result: Result<T, Error>, writes: seq<Write>)

  /** The entity `Create` starts from before any mutation. */
  function DefaultTreeCluster(): (tc: TreeCluster)
    ensures tc.region.None? && tc.latitude.None? && tc.longitude.None? && tc.lastWatered.None?
    ensures tc.address == "" && tc.description == "" && tc.name == ""
    ensures tc.moistureLevel == Zero
    ensures tc.wateringStatus == WateringStatusUnknown && tc.soilCondition == SoilConditionUnknown
    ensures !tc.archived && tc.trees == []
    ensures tc.id == 0
  {
    TreeCluster(
      id := 0, createdAt := Time(0), updatedAt := Time(0),
      region := None, address := "", description := "", moistureLevel := Zero,
      latitude := None, longitude := None,
      wateringStatus := WateringStatusUnknown, soilCondition := SoilConditionUnknown,
      archived := false, lastWatered := None, trees := [], name := "")
  }

  // ---------------------------------------------------------------- Create

  /** The insert parameters of a new cluster. */
  function CreateParams(tc: TreeCluster): (p: CreateTreeClusterParams)
    ensures p.regionId.None? <==> tc.region.None?
    ensures tc.region.Some? ==> p.regionId == Some(tc.region.value.id)
    ensures p.address == tc.address && p.description == tc.description && p.name == tc.name
    ensures p.moistureLevel == tc.moistureLevel
    ensures p.wateringStatus == tc.wateringStatus && p.soilCondition == tc.soilCondition
  {
    CreateTreeClusterParams(
      regionId := if tc.region.Some? then Some(tc.region.value.id) else None,
      address := tc.address,
      description := tc.description,
      moistureLevel := tc.moistureLevel,
      wateringStatus := tc.wateringStatus,
      soilCondition := tc.soilCondition,
      name := tc.name)
  }

  /** The insert does not carry the archived flag, the last-watered time, the
      trees, the position or the id: changing them changes no parameter. */
  lemma CreateParamsIgnore(tc: TreeCluster, archived: bool, lastWatered: Option<Time>, trees: seq<Tree>,
                           latitude: Option<Float64>, longitude: Option<Float64>, id: Int32)
    ensures CreateParams(tc) == CreateParams(tc.(archived := archived, lastWatered := lastWatered, trees := trees,
                                                 latitude := latitude, longitude := longitude, id := id))
  {
  }

  /** `createEntity`: the insert, then the location write when both
      coordinates are present. The two writes are not grouped in a transaction. */
  function CreateEntity(ex: Executor, tc: TreeCluster): (r: Run<Int32>)
    ensures |r.writes| >= 1 && r.writes[0] == Insert(CreateParams(tc))
    ensures |r.writes| == (if ex.createTreeCluster(CreateParams(tc)).Ok? && HasLocation(tc) then 2 else 1)
    ensures |r.writes| == 2 ==>
              r.writes[1] == Locate(SetTreeClusterLocationParams(
                               ex.createTreeCluster(CreateParams(tc)).value, tc.latitude.value, tc.longitude.value))
    ensures ex.createTreeCluster(CreateParams(tc)).Err? ==> r.result == ex.createTreeCluster(CreateParams(tc))
    ensures |r.writes| == 2 && ex.setTreeClusterLocation(r.writes[1].location).Some? ==>
              r.result == Err(ex.setTreeClusterLocation(r.writes[1].location).value)
    ensures r.result.Ok? <==>
              ex.createTreeCluster(CreateParams(tc)).Ok? && (|r.writes| == 1 || ex.setTreeClusterLocation(r.writes[1].location).None?)
    ensures r.result.Ok? ==> r.result == ex.createTreeCluster(CreateParams(tc))
  {
    var params := CreateParams(tc);
    match ex.createTreeCluster(params)
    case Err(e) => Run(Err(e), [Insert(params)])
    case Ok(id) =>
      if HasLocation(tc) then
        var location := SetTreeClusterLocationParams(id, tc.latitude.value, tc.longitude.value);
        match ex.setTreeClusterLocation(location)
        case Some(e) => Run(Err(e), [Insert(params), Locate(location)])
        case None => Run(Ok(id), [Insert(params), Locate(location)])
      else Run(Ok(id), [Insert(params)])
  }

  /** `Create`: the default entity with `fns` applied in order is inserted
      (and located); a failed write is translated by the store and no entity
      is returned; on success the stored cluster is read back by its new id. */
  function Create(s: Store.Store, ex: Executor, fns: seq<EntityFunc<TreeCluster>>): (r: Run<TreeCluster>)
    ensures var tc := Apply(DefaultTreeCluster(), fns);
            && r.writes == CreateEntity(ex, tc).writes
            && r.writes[0] == Insert(CreateParams(tc))
            && ((exists i :: 0 <= i < |r.writes| && r.writes[i].Locate?) <==>
                  ex.createTreeCluster(CreateParams(tc)).Ok? && HasLocation(tc))
    ensures var id := CreateEntity(ex, Apply(DefaultTreeCluster(), fns)).result;
            && (id.Err? ==> r.result == Err(Store.Classify(s, id.error)))
            && (id.Ok? ==> r.result == ex.getById(id.value))
  {
    var tc := Apply(DefaultTreeCluster(), fns);
    var created := CreateEntity(ex, tc);
    match created.result
    case Err(e) => Run(Err(Store.Classify(s, e)), created.writes)
    case Ok(id) => Run(ex.getById(id), created.writes)
  }

  /** With at most one coordinate set, `Create` issues no location write,
      whether or not the insert succeeds. */
  lemma CreateWithPartialPositionWritesNoLocation(s: Store.Store, ex: Executor, fns: seq<EntityFunc<TreeCluster>>)
    requires !HasLocation(Apply(DefaultTreeCluster(), fns))
    ensures forall w :: w in Create(s, ex, fns).writes ==> w.Insert?
    ensures |Create(s, ex, fns).writes| == 1
  {
  }

  /** A failed location write still leaves the insert issued before it, and
      `Create` reports the translated location error. */
  lemma CreateKeepsInsertAfterFailedLocation(s: Store.Store, ex: Executor, fns: seq<EntityFunc<TreeCluster>>)
    requires var tc := Apply(DefaultTreeCluster(), fns);
             && HasLocation(tc)
             && ex.createTreeCluster(CreateParams(tc)).Ok?
             && ex.setTreeClusterLocation(SetTreeClusterLocationParams(
                  ex.createTreeCluster(CreateParams(tc)).value, tc.latitude.value, tc.longitude.value)).Some?
    ensures var tc := Apply(DefaultTreeCluster(), fns);
            var location := SetTreeClusterLocationParams(
                              ex.createTreeCluster(CreateParams(tc)).value, tc.latitude.value, tc.longitude.value);
            && Create(s, ex, fns).writes == [Insert(CreateParams(tc)), Locate(location)]
            && Create(s, ex, fns).result == Err(Store.Classify(s, ex.setTreeClusterLocation(location).value))
  {
  }

  /** Creating a cluster with only an address and a moisture level inserts the
      defaults for everything else and writes no position. */
  lemma CreateWithAddressAndMoisture(s: Store.Store, ex: Executor, moisture: Float64)
    ensures var fns := [(tc: TreeCluster) => tc.(address := "Main St 1"), (tc: TreeCluster) => tc.(moistureLevel := moisture)];
            && Create(s, ex, fns).writes[0] ==
                 Insert(CreateTreeClusterParams(None, "Main St 1", "", moisture,
                                                WateringStatusUnknown, SoilConditionUnknown, ""))
            && |Create(s, ex, fns).writes| == 1
  {
    var fns := [(tc: TreeCluster) => tc.(address := "Main St 1"), (tc: TreeCluster) => tc.(moistureLevel := moisture)];
    var tc := Apply(DefaultTreeCluster(), fns);
    assert tc == DefaultTreeCluster().(address := "Main St 1", moistureLevel := moisture);
  }

  // ---------------------------------------------------------------- Update

  /** The update parameters of a cluster whose region is set; the last-watered
      time goes through a timestamp conversion this model takes as given. */
  function UpdateParams(tc: TreeCluster, toPgTimestamp: Option<Time> -> PgTimestamp): (p: UpdateTreeClusterParams)
    requires tc.region.Some?
    ensures p.id == tc.id && p.regionId == Some(tc.region.value.id)
    ensures p.address == tc.address && p.description == tc.description
    ensures p.moistureLevel == tc.moistureLevel
    ensures p.wateringStatus == tc.wateringStatus && p.soilCondition == tc.soilCondition
    ensures p.lastWatered == toPgTimestamp(tc.lastWatered) && p.archived == tc.archived
  {
    UpdateTreeClusterParams(
      id := tc.id,
      regionId := Some(tc.region.value.id),
      address := tc.address,
      description := tc.description,
      moistureLevel := tc.moistureLevel,
      wateringStatus := tc.wateringStatus,
      soilCondition := tc.soilCondition,
      lastWatered := toPgTimestamp(tc.lastWatered),
      archived := tc.archived)
  }

  /** The update does not carry the name, the position or the trees. */
  lemma UpdateParamsIgnore(tc: TreeCluster, toPgTimestamp: Option<Time> -> PgTimestamp, name: string,
                           latitude: Option<Float64>, longitude: Option<Float64>, trees: seq<Tree>)
    requires tc.region.Some?
    ensures UpdateParams(tc, toPgTimestamp) ==
              UpdateParams(tc.(name := name, latitude := latitude, longitude := longitude, trees := trees), toPgTimestamp)
  {
  }

  /** The condition under which `Update` does not dereference a nil region:
      the fetched cluster, once mutated, has one. */
  predicate UpdateRegionSet(ex: Executor, id: Int32, fns: seq<EntityFunc<TreeCluster>>) {
    ex.getById(id).Ok? ==> Apply(ex.getById(id).value, fns).region.Some?
  }

  /** `Update`: read, mutate in order, write, and return the mutated value as
      it is in memory. A failed read is translated by the store and nothing is
      written; a failed write is returned untranslated. */
  function Update(s: Store.Store, ex: Executor, toPgTimestamp: Option<Time> -> PgTimestamp,
                  id: Int32, fns: seq<EntityFunc<TreeCluster>>): (r: Run<TreeCluster>)
    requires UpdateRegionSet(ex, id, fns)
    ensures ex.getById(id).Err? ==> r == Run(Err(Store.Classify(s, ex.getById(id).error)), [])
    ensures ex.getById(id).Ok? ==>
              var tc := Apply(ex.getById(id).value, fns);
              var params := UpdateParams(tc, toPgTimestamp);
              && r.writes == [Modify(params)]
              && (ex.updateTreeCluster(params).Some? ==> r.result == Err(ex.updateTreeCluster(params).value))
              && (ex.updateTreeCluster(params).None? ==> r.result == Ok(tc))
  {
    match ex.getById(id)
    case Err(e) => Run(Err(Store.Classify(s, e)), [])
    case Ok(fetched) =>
      var tc := Apply(fetched, fns);
      var params := UpdateParams(tc, toPgTimestamp);
      match ex.updateTreeCluster(params)
      case Some(e) => Run(Err(e), [Modify(params)])
      case None => Run(Ok(tc), [Modify(params)])
  }

  /** Updating a cluster that does not exist writes nothing and yields an
      error that is, or wraps, the tree-cluster not-found error, whether the
      repository's read reports the driver's no-rows signal (under the
      tree-cluster tag) or has already translated it. */
  lemma UpdateMissingCluster(ex: Executor, toPgTimestamp: Option<Time> -> PgTimestamp,
                             id: Int32, fns: seq<EntityFunc<TreeCluster>>)
    requires ex.getById(id) == Err(PgxNoRows) || ex.getById(id) == Err(TreeClusterNotFound)
    ensures var r := Update(Store.Store(Store.TreeClusterType), ex, toPgTimestamp, id, fns);
            && r.writes == []
            && r.result.Err?
            && Is(r.result.error, TreeClusterNotFound)
  {
  }

  /** A translated not-found error from the read is translated a second time:
      `Update` then reports an unknown-error wrapper around it, not the
      not-found error itself. */
  lemma UpdateRetranslatesReadError(s: Store.Store, ex: Executor, toPgTimestamp: Option<Time> -> PgTimestamp,
                                    id: Int32, fns: seq<EntityFunc<TreeCluster>>)
    requires ex.getById(id) == Err(TreeClusterNotFound)
    ensures Update(s, ex, toPgTimestamp, id, fns).result == Err(Wrapped(Store.UnknownErrorMessage, TreeClusterNotFound))
  {
  }

  /** A cluster stored without a region (the default `Create` produces, for
      one) cannot be updated unless a mutation sets a region: with no
      mutation, `Update`'s precondition fails. */
  lemma UpdateRejectsRegionlessCluster(ex: Executor, id: Int32)
    requires ex.getById(id) == Ok(DefaultTreeCluster().(id := id))
    ensures !UpdateRegionSet(ex, id, [])
  {
  }

  /** Update parameters that carry a missing region as a NULL region id, as
      the insert does. */
  function UpdateParamsNullableRegion(tc: TreeCluster, toPgTimestamp: Option<Time> -> PgTimestamp): (p: UpdateTreeClusterParams)
    ensures p.regionId.None? <==> tc.region.None?
    ensures tc.region.Some? ==> p == UpdateParams(tc, toPgTimestamp)
    ensures p.id == tc.id && p.address == tc.address && p.description == tc.description
    ensures p.moistureLevel == tc.moistureLevel
    ensures p.wateringStatus == tc.wateringStatus && p.soilCondition == tc.soilCondition
    ensures p.lastWatered == toPgTimestamp(tc.lastWatered) && p.archived == tc.archived
  {
    UpdateTreeClusterParams(
      id := tc.id,
      regionId := if tc.region.Some? then Some(tc.region.value.id) else None,
      address := tc.address,
      description := tc.description,
      moistureLevel := tc.moistureLevel,
      wateringStatus := tc.wateringStatus,
      soilCondition := tc.soilCondition,
      lastWatered := toPgTimestamp(tc.lastWatered),
      archived := tc.archived)
  }

  /** `Update` built on the nullable-region parameters: defined for every
      fetched cluster, and identical to `Update` wherever that is defined. */
  function UpdateAnyRegion(s: Store.Store, ex: Executor, toPgTimestamp: Option<Time> -> PgTimestamp,
                           id: Int32, fns: seq<EntityFunc<TreeCluster>>): (r: Run<TreeCluster>)
    ensures UpdateRegionSet(ex, id, fns) ==> r == Update(s, ex, toPgTimestamp, id, fns)
    ensures ex.getById(id).Err? ==> r == Run(Err(Store.Classify(s, ex.getById(id).error)), [])
    ensures ex.getById(id).Ok? ==>
              var tc := Apply(ex.getById(id).value, fns);
              var params := UpdateParamsNullableRegion(tc, toPgTimestamp);
              && r.writes == [Modify(params)]
              && (params.regionId.None? <==> tc.region.None?)
              && (ex.updateTreeCluster(params).Some? ==> r.result == Err(ex.updateTreeCluster(params).value))
              && (ex.updateTreeCluster(params).None? ==> r.result == Ok(tc))
  {
    match ex.getById(id)
    case Err(e) => Run(Err(Store.Classify(s, e)), [])
    case Ok(fetched) =>
      var tc := Apply(fetched, fns);
      var params := UpdateParamsNullableRegion(tc, toPgTimestamp);
      match ex.updateTreeCluster(params)
      case Some(e) => Run(Err(e), [Modify(params)])
      case None => Run(Ok(tc), [Modify(params)])
  }

  /** Mutations reach the written row in order: when the last mutation sets
      the address and the write succeeds, both the row written and the value
      returned carry that address. */
  lemma UpdateLastAddressWins(s: Store.Store, ex: Executor, toPgTimestamp: Option<Time> -> PgTimestamp,
                              id: Int32, fns: seq<EntityFunc<TreeCluster>>, address: string)
    requires UpdateRegionSet(ex, id, fns + [(tc: TreeCluster) => tc.(address := address)])
    requires ex.getById(id).Ok?
    ensures var r := Update(s, ex, toPgTimestamp, id, fns + [(tc: TreeCluster) => tc.(address := address)]);
            && r.writes[0].update.address == address
            && (r.result.Ok? ==> r.result.value.address == address)
  {
    var setAddress := (tc: TreeCluster) => tc.(address := address);
    LastWriteWins(ex.getById(id).value, fns, setAddress, [], (tc: TreeCluster) => tc.address, address);
    assert fns + [setAddress] + [] == fns + [setAddress];
  }
}
