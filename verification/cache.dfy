/** The three buffers of a store: sensors by uuid, uuids by external id, and readings held back. */
module Caches {
  import opened Types
  import opened Cells
  import opened Databases

  datatype Cache = Cache(sensors: SensorTable, externalIds: map<ExternalId, Uuid>, pending: map<Uuid, Pending>)

  const EMPTY_CACHE := Cache(map[], map[], map[])

  /** The uuid last registered under the external id of `s`, as a set of at most one uuid. */
  function Previous(c: Cache, s: Sensor): set<Uuid> {
    if s.externalId in c.externalIds then {c.externalIds[s.externalId]} else {}
  }

  /** The readings held back for `s` once it has been registered: those of the uuid it replaces, none
      if it replaces itself, otherwise those it had. */
  function Inherited(c: Cache, s: Sensor): Pending {
    var replaced := Previous(c, s);
    if s.uuid in replaced then NOTHING
    else if replaced != {} && c.externalIds[s.externalId] in c.pending then c.pending[c.externalIds[s.externalId]]
    else if s.uuid in c.pending then c.pending[s.uuid]
    else NOTHING
  }

  function SetBuffers(c: Cache, s: Sensor): Cache {
    Cache((c.sensors - Previous(c, s))[s.uuid := s],
          c.externalIds[s.externalId := s.uuid],
          (c.pending - Previous(c, s))[s.uuid := Inherited(c, s)])
  }

  function ClearBuffers(c: Cache, s: Sensor): Cache {
    Cache(c.sensors - {s.uuid}, c.externalIds - {s.externalId}, c.pending - {s.uuid})
  }

  function Prepare(c: Cache, order: seq<Sensor>): Cache
    decreases |order|
  {
    if order == [] then c else Prepare(SetBuffers(c, order[0]), order[1..])
  }

  // ---------- invariants ----------

  predicate LeadsTo(ids: map<ExternalId, Uuid>, e: ExternalId, u: Uuid) {
    e in ids && ids[e] == u
  }

  /** Holds whatever sensors are registered: each cached sensor is keyed by its uuid, has its readings
      buffers, and is the one its external id leads to. */
  ghost predicate Indexed(c: Cache) {
    && c.sensors.Keys == c.pending.Keys
    && KeyedByUuid(c.sensors)
    && forall u, e {:trigger Owns(c.sensors, u, e)} :: Owns(c.sensors, u, e) ==> LeadsTo(c.externalIds, e, u)
  }

  /** The external ids lead to nothing else: no stale entries. */
  ghost predicate Exact(c: Cache) {
    && Indexed(c)
    && forall u, e {:trigger LeadsTo(c.externalIds, e, u)} :: LeadsTo(c.externalIds, e, u) ==> Owns(c.sensors, u, e)
  }

  /** The handle `s` does not change the external id of a cached sensor. */
  predicate Stable(c: Cache, s: Sensor) {
    s.uuid in c.sensors ==> Owns(c.sensors, s.uuid, s.externalId)
  }

  lemma IndexedIdsAreUnique(c: Cache)
    requires Indexed(c)
    ensures UniqueExternalIds(c.sensors)
  {
    forall u, v, e | Owns(c.sensors, u, e) && Owns(c.sensors, v, e) ensures u == v {
      assert LeadsTo(c.externalIds, e, u) && LeadsTo(c.externalIds, e, v);
    }
  }

  /** Registering keeps the index sound, even for a sensor whose external id changed. */
  lemma SetBuffersKeepsIndexed(c: Cache, s: Sensor)
    requires Indexed(c)
    ensures Indexed(SetBuffers(c, s))
    ensures UniqueExternalIds(SetBuffers(c, s).sensors)
  {
    var d := SetBuffers(c, s);
    forall u, e | Owns(d.sensors, u, e) ensures LeadsTo(d.externalIds, e, u) {
      if u != s.uuid {
        assert Owns(c.sensors, u, e);
        assert e == s.externalId ==> u in Previous(c, s);
      }
    }
    IndexedIdsAreUnique(d);
  }

  /** Whatever the buffers were: the sensor is in, under its external id; whom that led to is out, unless
      it is the same; everything else stays. */
  lemma SetBuffersEffect(c: Cache, s: Sensor)
    ensures var d := SetBuffers(c, s);
      && d.sensors.Keys == (set u | u in c.sensors && !LeadsTo(c.externalIds, s.externalId, u)) + {s.uuid}
      && d.sensors[s.uuid] == s && (forall u :: u in d.sensors && u != s.uuid ==> d.sensors[u] == c.sensors[u])
      && d.pending.Keys == (set u | u in c.pending && !LeadsTo(c.externalIds, s.externalId, u)) + {s.uuid}
      && (forall u :: u in d.pending && u != s.uuid ==> d.pending[u] == c.pending[u])
    ensures forall u, e {:trigger LeadsTo(SetBuffers(c, s).externalIds, e, u)} ::
      LeadsTo(SetBuffers(c, s).externalIds, e, u) <==>
        if e == s.externalId then u == s.uuid else LeadsTo(c.externalIds, e, u)
  {
  }

  /** A stale entry that leads to no sensor changes nothing of what is held back. */
  lemma StaleEntryKeepsReadings(c: Cache, s: Sensor)
    requires s.externalId in c.externalIds && c.externalIds[s.externalId] !in c.pending && s.uuid in c.pending
    ensures SetBuffers(c, s).pending[s.uuid] == c.pending[s.uuid]
  {
  }

  /** Held-back readings move intact to a uuid that takes over an external id, are dropped when the
      same uuid is registered again, stay when it gets a new external id, and a newcomer starts with none. */
  lemma SetBuffersMovesReadings(c: Cache, s: Sensor, prior: Uuid)
    requires Indexed(c)
    ensures var d := SetBuffers(c, s);
      && (Owns(c.sensors, prior, s.externalId) && prior != s.uuid ==>
            d.pending[s.uuid] == c.pending[prior] && prior !in d.pending && prior !in d.sensors)
      && (Owns(c.sensors, s.uuid, s.externalId) ==> d.pending[s.uuid] == NOTHING)
      && (s.uuid !in c.sensors && s.externalId !in c.externalIds ==> d.pending[s.uuid] == NOTHING)
      && (s.uuid in c.sensors && s.externalId !in c.externalIds ==> d.pending[s.uuid] == c.pending[s.uuid])
  {
    if Owns(c.sensors, prior, s.externalId) {
      assert LeadsTo(c.externalIds, s.externalId, prior);
    }
    if Owns(c.sensors, s.uuid, s.externalId) {
      assert LeadsTo(c.externalIds, s.externalId, s.uuid);
    }
  }

  /** Without stale entries, registering under a stable external id touches no other sensor. */
  lemma SetBuffersFrame(c: Cache, s: Sensor)
    requires Exact(c) && Stable(c, s)
    ensures var d := SetBuffers(c, s);
      forall v :: v in c.sensors && v != s.uuid && !Owns(c.sensors, v, s.externalId) ==>
        v in d.sensors && d.sensors[v] == c.sensors[v] && d.pending[v] == c.pending[v]
    ensures s.uuid in c.sensors || s.externalId !in c.externalIds ==>
      Previous(c, s) <= {s.uuid} && SetBuffers(c, s).pending == c.pending[s.uuid := NOTHING]
                                && SetBuffers(c, s).sensors == c.sensors[s.uuid := s]
  {
    if s.externalId in c.externalIds {
      assert LeadsTo(c.externalIds, s.externalId, c.externalIds[s.externalId]);
    }
    if s.uuid in c.sensors || s.externalId !in c.externalIds {
      SetBuffersInPlace(c, s);
    }
  }

  lemma SetBuffersInPlace(c: Cache, s: Sensor)
    requires Exact(c) && Stable(c, s) && (s.uuid in c.sensors || s.externalId !in c.externalIds)
    ensures var d := SetBuffers(c, s);
      Previous(c, s) <= {s.uuid} && d.pending == c.pending[s.uuid := NOTHING] && d.sensors == c.sensors[s.uuid := s]
  {
    if s.uuid in c.sensors {
      assert LeadsTo(c.externalIds, s.externalId, s.uuid);
    }
    assert Previous(c, s) <= {s.uuid};
  }

  lemma SetBuffersKeepsExact(c: Cache, s: Sensor)
    requires Exact(c) && Stable(c, s)
    ensures Exact(SetBuffers(c, s))
  {
    SetBuffersKeepsIndexed(c, s);
    var d := SetBuffers(c, s);
    forall u, e | LeadsTo(d.externalIds, e, u) ensures Owns(d.sensors, u, e) {
      if e != s.externalId {
        assert LeadsTo(c.externalIds, e, u) && Owns(c.sensors, u, e);
        if s.externalId in c.externalIds {
          assert LeadsTo(c.externalIds, s.externalId, c.externalIds[s.externalId]);
        }
      }
    }
  }

  /** A changed external id does leave a stale entry: stability is needed, not a convenience. */
  lemma UnstableIdGoesStale(c: Cache, s: Sensor)
    requires Exact(c) && !Stable(c, s)
    ensures Indexed(SetBuffers(c, s)) && !Exact(SetBuffers(c, s))
  {
    SetBuffersKeepsIndexed(c, s);
    var d, e := SetBuffers(c, s), c.sensors[s.uuid].externalId;
    assert Owns(c.sensors, s.uuid, e);
    assert LeadsTo(d.externalIds, e, s.uuid) && !Owns(d.sensors, s.uuid, e);
  }

  /** ... and the next sensor registered under the abandoned external id evicts this one and takes
      over the readings held back for it. */
  lemma StaleIdEvicts(c: Cache, s: Sensor, next: Sensor)
    requires Exact(c) && !Stable(c, s)
    requires next.uuid != s.uuid && next.externalId == c.sensors[s.uuid].externalId
    ensures var d := SetBuffers(c, s); var e := SetBuffers(d, next);
      s.uuid !in e.sensors && s.uuid !in e.pending && e.pending[next.uuid] == d.pending[s.uuid]
  {
    assert Owns(c.sensors, s.uuid, next.externalId);
    assert LeadsTo(SetBuffers(c, s).externalIds, next.externalId, s.uuid);
  }

  lemma ClearBuffersKeepsExact(c: Cache, s: Sensor)
    requires Exact(c) && s.uuid in c.sensors && Stable(c, s)
    ensures Exact(ClearBuffers(c, s))
  {
    var d := ClearBuffers(c, s);
    assert LeadsTo(c.externalIds, s.externalId, s.uuid);
    forall u, e | Owns(d.sensors, u, e) ensures LeadsTo(d.externalIds, e, u) {
      assert Owns(c.sensors, u, e);
    }
    forall u, e | LeadsTo(d.externalIds, e, u) ensures Owns(d.sensors, u, e) {
      assert LeadsTo(c.externalIds, e, u);
    }
  }

  // ---------- prepare ----------

  function ExternalIds(sensors: SensorTable): set<ExternalId> {
    set u | u in sensors :: sensors[u].externalId
  }

  /** A freshly prepared cache: every record registered, nothing held back. */
  ghost function CacheOf(sensors: SensorTable): Cache {
    Cache(sensors,
          map e | e in ExternalIds(sensors) && HasExternalId(sensors, e) :: OwnerOf(sensors, e),
          map u | u in sensors :: NOTHING)
  }

  lemma CacheOfIsExact(sensors: SensorTable)
    requires UniqueExternalIds(sensors) && KeyedByUuid(sensors)
    ensures Exact(CacheOf(sensors))
  {
    var c := CacheOf(sensors);
    forall u, e | Owns(sensors, u, e) ensures LeadsTo(c.externalIds, e, u) {
      assert e in ExternalIds(sensors);
      assert Owns(sensors, OwnerOf(sensors, e), e);
    }
  }

  /** Two exact caches of the same sensors differ at most in what they hold back. */
  lemma ExactIndexIsUnique(c: Cache, d: Cache)
    requires Exact(c) && Exact(d) && c.sensors == d.sensors
    ensures c.externalIds == d.externalIds
  {
    forall e | e in c.externalIds ensures e in d.externalIds && d.externalIds[e] == c.externalIds[e] {
      assert LeadsTo(c.externalIds, e, c.externalIds[e]);
      assert LeadsTo(d.externalIds, e, c.externalIds[e]);
    }
    forall e | e in d.externalIds ensures e in c.externalIds {
      assert LeadsTo(d.externalIds, e, d.externalIds[e]);
      assert LeadsTo(c.externalIds, e, d.externalIds[e]);
    }
  }

  lemma SetBuffersExtends(sensors: SensorTable, s: Sensor)
    requires UniqueExternalIds(sensors) && KeyedByUuid(sensors) && s.uuid !in sensors
    requires UniqueExternalIds(sensors[s.uuid := s])
    ensures SetBuffers(CacheOf(sensors), s) == CacheOf(sensors[s.uuid := s])
  {
    var base, more := CacheOf(sensors), sensors[s.uuid := s];
    CacheOfIsExact(sensors);
    CacheOfIsExact(more);
    NewIdIsUnknown(base, s);
    SetBuffersKeepsExact(base, s);
    SetBuffersFrame(base, s);
    ExactIndexIsUnique(SetBuffers(base, s), CacheOf(more));
    assert SetBuffers(base, s).pending == CacheOf(more).pending;
  }

  lemma NewIdIsUnknown(c: Cache, s: Sensor)
    requires Exact(c) && s.uuid !in c.sensors && UniqueExternalIds(c.sensors[s.uuid := s])
    ensures s.externalId !in c.externalIds
  {
    var more := c.sensors[s.uuid := s];
    forall e | e in c.externalIds ensures e != s.externalId {
      assert LeadsTo(c.externalIds, e, c.externalIds[e]);
      assert Owns(more, c.externalIds[e], e) && Owns(more, s.uuid, s.externalId);
    }
  }

  lemma {:induction false} PrepareFrom(done: SensorTable, order: seq<Sensor>, sensors: SensorTable)
    requires UniqueExternalIds(sensors) && KeyedByUuid(sensors)
    requires done.Keys <= sensors.Keys && forall u :: u in done ==> done[u] == sensors[u]
    requires Enumerates(order, sensors - done.Keys)
    ensures UniqueExternalIds(done)
    ensures Prepare(CacheOf(done), order) == CacheOf(sensors)
    decreases |order|
  {
    FewerSensors(sensors, done);
    if order == [] {
      assert forall u :: u in sensors - done.Keys ==> u in sensors && u !in done;
      assert sensors - done.Keys == map[];
      assert forall u :: u in sensors ==> u in done || u in sensors - done.Keys;
      assert done == sensors;
    } else {
      PrepareOne(done, order, sensors);
      var s := order[0];
      FewerSensors(sensors, done[s.uuid := s]);
      SetBuffersExtends(done, s);
      PrepareFrom(done[s.uuid := s], order[1..], sensors);
    }
  }

  lemma PrepareOne(done: SensorTable, order: seq<Sensor>, sensors: SensorTable)
    requires KeyedByUuid(sensors) && order != [] && Enumerates(order, sensors - done.Keys)
    ensures order[0].uuid in sensors && order[0].uuid !in done && sensors[order[0].uuid] == order[0]
    ensures Enumerates(order[1..], sensors - done[order[0].uuid := order[0]].Keys)
  {
    var s, rest := order[0], order[1..];
    var open := sensors - done[s.uuid := s].Keys;
    forall i | 0 <= i < |rest| ensures rest[i].uuid in open && open[rest[i].uuid] == rest[i] {
      assert rest[i] == order[i + 1];
    }
    forall u | u in open ensures open[u] in rest {
      assert u in sensors - done.Keys;
      var i :| 0 <= i < |order| && order[i] == sensors[u];
      assert i > 0 && rest[i - 1] == sensors[u];
    }
  }

  /** `prepare` from an empty cache builds the same cache for every order of the records. */
  lemma {:induction false} PrepareBuildsTheCache(order: seq<Sensor>, sensors: SensorTable)
    requires UniqueExternalIds(sensors) && KeyedByUuid(sensors) && Enumerates(order, sensors)
    ensures Prepare(EMPTY_CACHE, order) == CacheOf(sensors)
  {
    var none: SensorTable := map[];
    assert sensors - none.Keys == sensors;
    PrepareFrom(none, order, sensors);
    assert CacheOf(none) == EMPTY_CACHE;
  }
}
