/** The registry snapshot: entity -> area and entity -> device, and what its
    look-ups answer while it is fresh and after it has gone stale. */
module Registry {
  import opened Collections
  import opened JsonValues

  datatype Snapshot = Snapshot(areaOf: map<string, Option<string>>, deviceOf: map<string, Option<string>>) {
    /** Both indexes are built by the same loop, so they list the same entities. */
    predicate Aligned() {
      areaOf.Keys == deviceOf.Keys
    }
  }

  /** A snapshot as it can be consulted at one instant. */
  datatype View = View(isFresh: bool, snap: Snapshot)

  /** What HA guarantees about its registry lists: ids are strings or null. */
  predicate TypedEntity(e: Json) {
    e.JObj? ==>
      && ("entity_id" in e.fields ==> e.fields["entity_id"].JStr?)
      && NullOrString(Get(e.fields, "area_id"))
      && NullOrString(Get(e.fields, "device_id"))
  }

  predicate TypedDevice(d: Json) {
    d.JObj? ==> NullOrString(Get(d.fields, "id")) && NullOrString(Get(d.fields, "area_id"))
  }

  predicate Registered(e: Json) {
    e.JObj? && "entity_id" in e.fields
  }

  /** `{d["id"]: d.get("area_id") for d in devices if isinstance(d, dict)}`; later
      entries win, and an entry without an id raises. */
  function DeviceAreas(devices: seq<Json>): Option<map<Option<string>, Option<string>>>
    requires forall d :: d in devices ==> TypedDevice(d)
  {
    if devices == [] then Some(map[])
    else
      var rest, d := DeviceAreas(devices[..|devices| - 1]), devices[|devices| - 1];
      assert TypedDevice(devices[|devices| - 1]);
      if rest.None? then None
      else if !d.JObj? then rest
      else if "id" !in d.fields then None
      else Some(rest.value[OptString(d.fields["id"]) := OptString(Get(d.fields, "area_id"))])
  }

  /** The entity's own area, else the area of its device. */
  function AreaOfEntry(e: Json, deviceAreas: map<Option<string>, Option<string>>): Option<string>
    requires e.JObj? && TypedEntity(e)
  {
    var own := Get(e.fields, "area_id");
    if Truthy(own) then OptString(own)
    else
      var device := Get(e.fields, "device_id");
      var key := Some(if Truthy(device) then device.s else "");
      if key in deviceAreas then deviceAreas[key] else None
  }

  function Index(entities: seq<Json>, deviceAreas: map<Option<string>, Option<string>>): Snapshot
    requires forall e :: e in entities ==> TypedEntity(e)
  {
    if entities == [] then Snapshot(map[], map[])
    else
      var rest, e := Index(entities[..|entities| - 1], deviceAreas), entities[|entities| - 1];
      assert TypedEntity(entities[|entities| - 1]);
      if !Registered(e) then rest
      else
        var id := e.fields["entity_id"].s;
        Snapshot(rest.areaOf[id := AreaOfEntry(e, deviceAreas)],
                 rest.deviceOf[id := OptString(Get(e.fields, "device_id"))])
  }

  /** `entity_id.split(".", 1)[0]` */
  function DomainOf(entityId: string): string {
    if entityId == "" || entityId[0] == '.' then "" else [entityId[0]] + DomainOf(entityId[1..])
  }

  function AreaOf(v: View, entityId: string): Option<string> {
    if v.isFresh && entityId in v.snap.areaOf then v.snap.areaOf[entityId] else None
  }

  function DeviceOf(v: View, entityId: string): Option<string> {
    if v.isFresh && entityId in v.snap.deviceOf then v.snap.deviceOf[entityId] else None
  }

  predicate MatchesRules(v: View, e: string, domains: set<string>, areas: set<string>)
    requires e in v.snap.areaOf
  {
    DomainOf(e) in domains || (v.snap.areaOf[e].Some? && v.snap.areaOf[e].value in areas)
  }

  function EntitiesMatching(v: View, domains: set<string>, areas: set<string>): set<string> {
    if !v.isFresh then {} else set e | e in v.snap.areaOf && MatchesRules(v, e, domains, areas)
  }

  /** `stored == wanted` for a stored `str | None` and any JSON value. */
  predicate SameValue(stored: Option<string>, wanted: Json) {
    match stored
    case Some(s) => wanted == JStr(s)
    case None => wanted == JNull
  }

  function EntitiesInArea(v: View, area: Json): Option<set<string>> {
    if !v.isFresh then None else Some(set e | e in v.snap.areaOf && SameValue(v.snap.areaOf[e], area))
  }

  function EntitiesOfDevice(v: View, device: Json): Option<set<string>> {
    if !v.isFresh then None else Some(set e | e in v.snap.deviceOf && SameValue(v.snap.deviceOf[e], device))
  }

  class RegistryCache {
    const staleMax: real
    var entityArea: map<string, Option<string>>
    var entityDevice: map<string, Option<string>>
    var fetchedAt: real

    constructor (staleMax: real)
      ensures this.staleMax == staleMax && fetchedAt == 0.0 && entityArea == map[] && entityDevice == map[]
    {
      this.staleMax := staleMax;
      entityArea, entityDevice, fetchedAt := map[], map[], 0.0;
    }

    /** A snapshot never fetched has infinite age. */
    predicate Fresh(now: real)
      reads this
    {
      fetchedAt != 0.0 && now - fetchedAt <= staleMax
    }

    function ViewAt(now: real): View
      reads this
    {
      View(Fresh(now), Snapshot(entityArea, entityDevice))
    }

    /** Replaces both indexes at once, or raises and leaves everything as it was. */
    method Refresh(entities: seq<Json>, devices: seq<Json>, now: real) returns (ok: bool)
      requires forall e :: e in entities ==> TypedEntity(e)
      requires forall d :: d in devices ==> TypedDevice(d)
      modifies this
      ensures ok <==> DeviceAreas(devices).Some?
      ensures !ok ==> entityArea == old(entityArea) && entityDevice == old(entityDevice) && fetchedAt == old(fetchedAt)
      ensures ok ==> Snapshot(entityArea, entityDevice) == Index(entities, DeviceAreas(devices).value)
      ensures ok ==> fetchedAt == now
    {
      var deviceArea: map<Option<string>, Option<string>> := map[];
      for i := 0 to |devices|
        invariant DeviceAreas(devices[..i]) == Some(deviceArea)
      {
        assert devices[..i + 1][..i] == devices[..i];
        assert devices[i] in devices;
        if devices[i].JObj? {
          var d := devices[i].fields;
          if "id" !in d {
            DeviceAreasFail(devices, i + 1);
            return false;
          }
          deviceArea := deviceArea[OptString(d["id"]) := OptString(Get(d, "area_id"))];
        }
      }
      assert devices[..|devices|] == devices;
      var areas: map<string, Option<string>>, owners: map<string, Option<string>> := map[], map[];
      for i := 0 to |entities|
        invariant Snapshot(areas, owners) == Index(entities[..i], deviceArea)
      {
        assert entities[..i + 1][..i] == entities[..i];
        var e := entities[i];
        assert e in entities;
        if Registered(e) {
          var id := e.fields["entity_id"].s;
          areas := areas[id := AreaOfEntry(e, deviceArea)];
          owners := owners[id := OptString(Get(e.fields, "device_id"))];
        }
      }
      assert entities[..|entities|] == entities;
      entityArea, entityDevice, fetchedAt := areas, owners, now;
      return true;
    }

    method EntitiesMatchingNow(domains: set<string>, areas: set<string>, now: real) returns (out: set<string>)
      ensures out == EntitiesMatching(ViewAt(now), domains, areas)
    {
      out := {};
      if !Fresh(now) { return; }
      var v := ViewAt(now);
      var todo := entityArea.Keys;
      while todo != {}
        invariant todo <= entityArea.Keys
        invariant out == set e | e in entityArea.Keys - todo && MatchesRules(v, e, domains, areas)
      {
        var eid :| eid in todo;
        todo := todo - {eid};
        if DomainOf(eid) in domains || (entityArea[eid].Some? && entityArea[eid].value in areas) {
          out := out + {eid};
        }
      }
    }
  }

  /** Once an entry has raised, the whole list raises. */
  lemma {:induction false} DeviceAreasFail(devices: seq<Json>, i: nat)
    requires forall d :: d in devices ==> TypedDevice(d)
    requires i <= |devices| && DeviceAreas(devices[..i]).None?
    ensures DeviceAreas(devices).None?
    decreases |devices| - i
  {
    if i == |devices| {
      assert devices[..i] == devices;
    } else {
      assert devices[..i + 1][..i] == devices[..i];
      DeviceAreasFail(devices, i + 1);
    }
  }

  ghost predicate LastEntryFor(entities: seq<Json>, i: nat, id: string) {
    && i < |entities|
    && Registered(entities[i]) && entities[i].fields["entity_id"] == JStr(id)
    && forall k :: i < k < |entities| && Registered(entities[k]) ==> entities[k].fields["entity_id"] != JStr(id)
  }

  predicate NamesEntity(e: Json, id: string) {
    Registered(e) && e.fields["entity_id"] == JStr(id)
  }

  lemma LastEntrySnoc(front: seq<Json>, last: Json, id: string, i: nat)
    ensures LastEntryFor(front + [last], i, id) <==>
      if NamesEntity(last, id) then i == |front| else LastEntryFor(front, i, id)
  {
    var entities := front + [last];
    assert entities[|front|] == last && forall k :: 0 <= k < |front| ==> entities[k] == front[k];
    if NamesEntity(last, id) && i < |front| { assert Registered(entities[|front|]); }
  }

  /** The last entry that names the entity, if there is one, gives its area and device. */
  ghost predicate IndexedAt(entities: seq<Json>, deviceAreas: map<Option<string>, Option<string>>, id: string)
    requires forall e :: e in entities ==> TypedEntity(e)
  {
    var index := Index(entities, deviceAreas);
    && (id in index.areaOf <==> id in index.deviceOf)
    && (id in index.areaOf <==> exists i: nat :: LastEntryFor(entities, i, id))
    && forall i: nat :: LastEntryFor(entities, i, id) ==>
         && index.areaOf[id] == AreaOfEntry(entities[i], deviceAreas)
         && index.deviceOf[id] == OptString(Get(entities[i].fields, "device_id"))
  }

  lemma {:induction false} IndexedAtLast(entities: seq<Json>, deviceAreas: map<Option<string>, Option<string>>,
                                         id: string)
    requires forall e :: e in entities ==> TypedEntity(e)
    ensures IndexedAt(entities, deviceAreas, id)
  {
    if entities == [] {
    } else {
      var n := |entities| - 1;
      var front, last := entities[..n], entities[n];
      IndexedAtLast(front, deviceAreas, id);
      assert entities == front + [last] && TypedEntity(entities[n]);
      forall i: nat
        ensures LastEntryFor(entities, i, id) <==> if NamesEntity(last, id) then i == n else LastEntryFor(front, i, id)
      {
        LastEntrySnoc(front, last, id, i);
      }
      if NamesEntity(last, id) {
        assert LastEntryFor(entities, n, id);
      } else if id in Index(front, deviceAreas).areaOf {
        var i: nat :| LastEntryFor(front, i, id);
        assert LastEntryFor(entities, i, id);
      }
    }
  }

  /** After any refresh the two indexes list the same entities, namely the
      registered ones, and each entity has the area and the device of the last entry
      that names it. */
  lemma IndexIsLastEntry(entities: seq<Json>, deviceAreas: map<Option<string>, Option<string>>)
    requires forall e :: e in entities ==> TypedEntity(e)
    ensures Index(entities, deviceAreas).Aligned()
    ensures forall id :: IndexedAt(entities, deviceAreas, id)
  {
    forall id
      ensures IndexedAt(entities, deviceAreas, id)
    {
      IndexedAtLast(entities, deviceAreas, id);
    }
    var index := Index(entities, deviceAreas);
    assert forall id :: id in index.areaOf <==> id in index.deviceOf by {
      forall id
        ensures id in index.areaOf <==> id in index.deviceOf
      {
        assert IndexedAt(entities, deviceAreas, id);
      }
    }
  }

  ghost predicate LastDevice(devices: seq<Json>, j: nat, key: Option<string>) {
    && j < |devices| && Identified(devices[j], key)
    && forall k :: j < k < |devices| ==> !Identified(devices[k], key)
  }

  predicate Identified(d: Json, key: Option<string>) {
    d.JObj? && "id" in d.fields && SameValue(key, d.fields["id"])
  }

  lemma {:induction false} DeviceAreasIsLastDevice(devices: seq<Json>, key: Option<string>)
    requires (forall d :: d in devices ==> TypedDevice(d)) && DeviceAreas(devices).Some?
    ensures key in DeviceAreas(devices).value <==> exists j: nat :: LastDevice(devices, j, key)
    ensures forall j: nat :: LastDevice(devices, j, key) ==>
      key in DeviceAreas(devices).value && SameValue(DeviceAreas(devices).value[key], Get(devices[j].fields, "area_id"))
  {
    if devices == [] {
    } else {
      var n := |devices| - 1;
      var front, last := devices[..n], devices[n];
      DeviceAreasIsLastDevice(front, key);
      assert TypedDevice(devices[n]);
      forall j: nat
        ensures LastDevice(devices, j, key) <==> if Identified(last, key) then j == n else LastDevice(front, j, key)
      {
        if j < n { assert devices[j] == front[j]; }
      }
      if Identified(last, key) {
        assert LastDevice(devices, n, key);
      } else if key in DeviceAreas(front).value {
        var j: nat :| LastDevice(front, j, key);
        assert LastDevice(devices, j, key);
      }
    }
  }

  /** `device_id or ""` */
  function DeviceKey(e: Json): Option<string>
    requires e.JObj?
  {
    var device := Get(e.fields, "device_id");
    Some(if device.JStr? then device.s else "")
  }

  /** A registered entity's area after a refresh: its own if it has one, else the area of the
      last device entry with its device id, else none. */
  lemma AreaIsOwnOrDevices(entities: seq<Json>, devices: seq<Json>, i: nat, id: string)
    requires (forall e :: e in entities ==> TypedEntity(e)) && (forall d :: d in devices ==> TypedDevice(d))
    requires DeviceAreas(devices).Some? && LastEntryFor(entities, i, id)
    ensures var areaOf := Index(entities, DeviceAreas(devices).value).areaOf;
      var own, device := Get(entities[i].fields, "area_id"), DeviceKey(entities[i]);
      id in areaOf &&
      (Truthy(own) ==> SameValue(areaOf[id], own)) &&
      (!Truthy(own) ==>
         forall j: nat :: LastDevice(devices, j, device) ==>
           SameValue(areaOf[id], Get(devices[j].fields, "area_id"))) &&
      (!Truthy(own) && (forall j: nat :: !LastDevice(devices, j, device)) ==> areaOf[id] == None)
  {
    assert entities[i] in entities;
    IndexedAtLast(entities, DeviceAreas(devices).value, id);
    DeviceAreasIsLastDevice(devices, DeviceKey(entities[i]));
  }
}
