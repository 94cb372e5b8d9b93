/** Deciding a service call: which entities does it address, can every target be
    expanded, and may the user control all of them? */
module ServiceCalls {
  import opened Collections
  import opened JsonValues
  import opened Registry
  import opened Policies
  import opened Evaluator

  /** The structured ways to name a target. */
  datatype TargetKind = DeviceId | AreaId | LabelId | FloorId {
    function Key(): string {
      match this
      case DeviceId => "device_id"
      case AreaId => "area_id"
      case LabelId => "label_id"
      case FloorId => "floor_id"
    }
  }

  const KINDS: seq<TargetKind> := [DeviceId, AreaId, LabelId, FloorId]

  /** An entry of the list of targets that are not yet sets of entities. */
  datatype Unresolved = Kind(kind: TargetKind) | Wildcard(raw: string) | NoTarget {
    predicate Expandable() {
      Kind? && (kind.AreaId? || kind.DeviceId?)
    }
  }

  /** Expands one area or device to entity ids; `None` when it cannot. */
  type Resolver = (TargetKind, Json) -> Option<set<string>>

  function Resolve(v: View, kind: TargetKind, value: Json): Option<set<string>> {
    match kind
    case AreaId => EntitiesInArea(v, value)
    case DeviceId => EntitiesOfDevice(v, value)
    case _ => None
  }

  function ResolverOf(v: View): Resolver {
    (kind, value) => Resolve(v, kind, value)
  }

  // ---- what a call asks for ----

  predicate IsWildcard(c: Json) {
    c.JObj? && (Get(c.fields, "entity_id") == JStr("all") || Get(c.fields, "entity_id") == JStr("none"))
  }

  predicate HasKind(c: Json, kind: TargetKind) {
    c.JObj? && Truthy(Get(c.fields, kind.Key()))
  }

  /** The entities a container lists by id. */
  function Listed(c: Json): set<string> {
    if !c.JObj? then {}
    else
      match Get(c.fields, "entity_id")
      case JStr(s) => if s == "all" || s == "none" then {} else {s}
      case JList(items) => StringsOf(items)
      case _ => {}
  }

  /** The area or device values a container gives, one or a list of them. */
  function Values(c: Json, kind: TargetKind): seq<Json> {
    if !HasKind(c, kind) then []
    else
      var v := Get(c.fields, kind.Key());
      if v.JList? then v.items else [v]
  }

  /** Everything a call asks for, over both its containers. `beyond` says that it uses
      a bare all/none wildcard, a label or a floor, which are never expanded. */
  datatype Demand = Demand(beyond: bool, listed: set<string>, areas: seq<Json>, devices: seq<Json>) {
    function Values(kind: TargetKind): seq<Json> {
      match kind
      case AreaId => areas
      case DeviceId => devices
      case _ => []
    }
  }

  predicate Beyond(c: Json) {
    IsWildcard(c) || HasKind(c, LabelId) || HasKind(c, FloorId)
  }

  function DemandOf(serviceData: Json, target: Json): Demand {
    Demand(Beyond(serviceData) || Beyond(target),
           Listed(serviceData) + Listed(target),
           Values(serviceData, AreaId) + Values(target, AreaId),
           Values(serviceData, DeviceId) + Values(target, DeviceId))
  }

  predicate AllResolve(resolve: Resolver, kind: TargetKind, values: seq<Json>) {
    forall v | v in values :: resolve(kind, v).Some?
  }

  /** The union of what the resolvable values stand for. */
  function Expanded(resolve: Resolver, kind: TargetKind, values: seq<Json>): set<string> {
    if values == [] then {}
    else
      var got := resolve(kind, values[|values| - 1]);
      Expanded(resolve, kind, values[..|values| - 1]) + if got.Some? then got.value else {}
  }

  /** Every entity the call would act on. */
  function Targets(resolve: Resolver, d: Demand): set<string> {
    d.listed + Expanded(resolve, AreaId, d.areas) + Expanded(resolve, DeviceId, d.devices)
  }

  predicate Resolvable(resolve: Resolver, d: Demand) {
    !d.beyond && AllResolve(resolve, AreaId, d.areas) && AllResolve(resolve, DeviceId, d.devices)
  }

  /** The verdict stated outright: everything resolves, something is addressed, and all
      of it may be controlled. */
  predicate Permitted(control: string -> bool, resolve: Resolver, d: Demand) {
    && Resolvable(resolve, d)
    && Targets(resolve, d) != {}
    && forall e | e in Targets(resolve, d) :: control(e)
  }

  // ---- resolve_service_targets ----

  function KindsIn(c: Json, kinds: seq<TargetKind>): seq<Unresolved> {
    if kinds == [] then []
    else
      var n := |kinds| - 1;
      KindsIn(c, kinds[..n]) + if HasKind(c, kinds[n]) then [Kind(kinds[n])] else []
  }

  function UnresolvedIn(c: Json): seq<Unresolved> {
    (if IsWildcard(c) then [Wildcard(Get(c.fields, "entity_id").s)] else []) + KindsIn(c, KINDS)
  }

  function AllUnresolved(serviceData: Json, target: Json): seq<Unresolved> {
    var found := UnresolvedIn(serviceData) + UnresolvedIn(target);
    if Listed(serviceData) + Listed(target) == {} && found == [] then [NoTarget] else found
  }

  method CollectIds(container: Json, entities: set<string>) returns (entities': set<string>, wildcard: seq<Unresolved>)
    requires container.JObj?
    ensures entities' == entities + Listed(container)
    ensures wildcard == if IsWildcard(container) then [Wildcard(Get(container.fields, "entity_id").s)] else []
  {
    entities', wildcard := entities, [];
    var raw := Get(container.fields, "entity_id");
    if raw.JStr? {
      if raw.s == "all" || raw.s == "none" {
        wildcard := [Wildcard(raw.s)];
      } else {
        entities' := entities' + {raw.s};
      }
    } else if raw.JList? {
      for i := 0 to |raw.items|
        invariant entities' == entities + StringsOf(raw.items[..i])
      {
        assert raw.items[..i + 1] == raw.items[..i] + [raw.items[i]];
        if raw.items[i].JStr? { entities' := entities' + {raw.items[i].s}; }
      }
      assert raw.items[..|raw.items|] == raw.items;
    }
  }

  method Collect(container: Json, entities: set<string>, unresolved: seq<Unresolved>)
    returns (entities': set<string>, unresolved': seq<Unresolved>)
    ensures entities' == entities + Listed(container)
    ensures unresolved' == unresolved + UnresolvedIn(container)
  {
    if !container.JObj? {
      KindsOfNothing(container, KINDS);
      return entities, unresolved;
    }
    var wildcard;
    entities', wildcard := CollectIds(container, entities);
    var kinds, found := KINDS, [];
    for i := 0 to |kinds|
      invariant found == KindsIn(container, kinds[..i])
    {
      assert kinds[..i + 1][..i] == kinds[..i];
      if Truthy(Get(container.fields, kinds[i].Key())) {
        found := found + [Kind(kinds[i])];
      }
    }
    assert kinds[..|kinds|] == kinds;
    unresolved' := unresolved + (wildcard + found);
  }

  method ResolveServiceTargets(serviceData: Json, target: Json)
    returns (entities: set<string>, unresolved: seq<Unresolved>)
    ensures entities == DemandOf(serviceData, target).listed
    ensures unresolved == AllUnresolved(serviceData, target)
  {
    entities, unresolved := Collect(serviceData, {}, []);
    assert entities == Listed(serviceData) && unresolved == UnresolvedIn(serviceData);
    entities, unresolved := Collect(target, entities, unresolved);
    assert entities == Listed(serviceData) + Listed(target);
    if entities == {} && unresolved == [] {
      unresolved := [NoTarget];
    }
  }

  lemma {:induction false} KindsMembers(c: Json, kinds: seq<TargetKind>)
    ensures forall u :: u in KindsIn(c, kinds) <==> u.Kind? && u.kind in kinds && HasKind(c, u.kind)
  {
    if kinds == [] {
    } else {
      var n := |kinds| - 1;
      KindsMembers(c, kinds[..n]);
      assert forall k :: k in kinds <==> k in kinds[..n] || k == kinds[n];
    }
  }

  lemma KindsOfNothing(c: Json, kinds: seq<TargetKind>)
    requires !c.JObj?
    ensures KindsIn(c, kinds) == []
  {}

  lemma AllKinds(k: TargetKind)
    ensures k in KINDS
  {
    var kinds := KINDS;
    assert kinds[0] == DeviceId && kinds[1] == AreaId && kinds[2] == LabelId && kinds[3] == FloorId;
  }

  /** What the list says about the call it was collected from. */
  ghost predicate Summarises(found: seq<Unresolved>, beyond: bool, areas: seq<Json>, devices: seq<Json>) {
    && (Kind(AreaId) in found <==> areas != [])
    && (Kind(DeviceId) in found <==> devices != [])
    && (beyond <==> exists u :: u in found && !u.Expandable())
  }

  lemma ListOfKinds(c: Json)
    ensures forall u :: u in KindsIn(c, KINDS) <==> u.Kind? && HasKind(c, u.kind)
  {
    KindsMembers(c, KINDS);
    forall k
      ensures k in KINDS
    {
      AllKinds(k);
    }
  }

  lemma NothingExpandable(found: seq<Unresolved>, has: TargetKind -> bool)
    requires forall u :: u in found <==> u.Kind? && has(u.kind)
    ensures (exists u :: u in found && !u.Expandable()) <==> has(LabelId) || has(FloorId)
  {
    assert has(LabelId) ==> Kind(LabelId) in found && !Kind(LabelId).Expandable();
    assert has(FloorId) ==> Kind(FloorId) in found && !Kind(FloorId).Expandable();
    forall u | u in found && !u.Expandable()
      ensures has(LabelId) || has(FloorId)
    {
      assert !u.kind.AreaId? && !u.kind.DeviceId?;
    }
  }

  lemma ListOfContainer(c: Json)
    ensures Summarises(UnresolvedIn(c), Beyond(c), Values(c, AreaId), Values(c, DeviceId))
  {
    ListOfKinds(c);
    var kinds, found := KindsIn(c, KINDS), UnresolvedIn(c);
    NothingExpandable(kinds, k => HasKind(c, k));
    if IsWildcard(c) {
      assert found[0].Wildcard? && found[0] in found;
    } else {
      assert found == kinds;
    }
  }

  lemma ListOfCall(serviceData: Json, target: Json)
    ensures var d, kinds := DemandOf(serviceData, target), AllUnresolved(serviceData, target);
      || Summarises(kinds, d.beyond, d.areas, d.devices)
      || (kinds == [NoTarget] && d.listed == {} && d.areas == [] && d.devices == [])
  {
    ListOfContainer(serviceData);
    ListOfContainer(target);
    var a, b := UnresolvedIn(serviceData), UnresolvedIn(target);
    assert forall u :: u in a + b <==> u in a || u in b;
    if a + b == [] {
      assert a == [] && b == [];
    }
  }

  // ---- service_call_allowed ----

  /** `list.remove(x)`: drops the first occurrence. */
  method RemoveFirst(xs: seq<Unresolved>, x: Unresolved) returns (ys: seq<Unresolved>, at: nat)
    requires x in xs
    ensures at < |xs| && xs[at] == x && x !in xs[..at]
    ensures ys == xs[..at] + xs[at + 1..]
  {
    at := 0;
    while xs[at] != x
      invariant at < |xs|
      invariant x !in xs[..at]
      decreases |xs| - at
    {
      at := at + 1;
    }
    ys := xs[..at] + xs[at + 1..];
  }

  lemma {:induction false} ExpandedMembers(resolve: Resolver, kind: TargetKind, values: seq<Json>)
    ensures forall e :: e in Expanded(resolve, kind, values) <==>
      exists v :: v in values && resolve(kind, v).Some? && e in resolve(kind, v).value
  {
    if values == [] {
    } else {
      var n := |values| - 1;
      ExpandedMembers(resolve, kind, values[..n]);
      assert forall v :: v in values <==> v in values[..n] || v == values[n];
    }
  }

  lemma ExpandedPrefix(resolve: Resolver, kind: TargetKind, values: seq<Json>, i: nat)
    requires i <= |values|
    ensures Expanded(resolve, kind, values[..i]) <= Expanded(resolve, kind, values)
  {
    ExpandedMembers(resolve, kind, values[..i]);
    ExpandedMembers(resolve, kind, values);
  }

  /** Expands the values of one kind until one fails. */
  method ExpandValues(resolve: Resolver, kind: TargetKind, values: seq<Json>, entities: set<string>)
    returns (resolvedAll: bool, entities': set<string>)
    ensures resolvedAll == AllResolve(resolve, kind, values)
    ensures resolvedAll ==> entities' == entities + Expanded(resolve, kind, values)
    ensures entities <= entities' <= entities + Expanded(resolve, kind, values)
  {
    entities' := entities;
    for i := 0 to |values|
      invariant AllResolve(resolve, kind, values[..i])
      invariant entities' == entities + Expanded(resolve, kind, values[..i])
    {
      assert values[..i + 1][..i] == values[..i];
      assert forall v :: v in values[..i] ==> v in values;
      var got := resolve(kind, values[i]);
      if got.None? {
        ExpandedPrefix(resolve, kind, values, i);
        return false, entities';
      }
      entities' := entities' + got.value;
    }
    assert values[..|values|] == values;
    return true, entities';
  }

  /** An entry the loop gets rid of: an area or device target whose every value resolves. */
  predicate Removable(resolve: Resolver, d: Demand, u: Unresolved) {
    u.Expandable() && AllResolve(resolve, u.kind, d.Values(u.kind))
  }

  function Stuck(resolve: Resolver, d: Demand): Unresolved -> bool {
    u => !Removable(resolve, d, u)
  }

  /** The list when the loop reaches entry `i`: what got stuck so far, then the rest. */
  function ListAt(stuck: Unresolved -> bool, kinds: seq<Unresolved>, i: nat): seq<Unresolved>
    requires i <= |kinds|
  {
    Keep(kinds[..i], stuck) + kinds[i..]
  }

  /** Every equal entry before `i` is already gone, so removing the first occurrence
      removes entry `i` itself. */
  method RemoveEntry(stuck: Unresolved -> bool, kinds: seq<Unresolved>, i: nat) returns (left: seq<Unresolved>)
    requires i < |kinds| && !stuck(kinds[i])
    ensures left == ListAt(stuck, kinds, i + 1)
  {
    var kept := Keep(kinds[..i], stuck);
    var before := ListAt(stuck, kinds, i);
    assert before[|kept|] == kinds[i];
    assert forall j :: 0 <= j < |kept| ==> before[j] in kept;
    var at;
    left, at := RemoveFirst(before, kinds[i]);
    assert at == |kept|;
    KeepSnoc(kinds, i, stuck);
    assert before[at + 1..] == kinds[i + 1..];
  }

  lemma KeepsEntry(stuck: Unresolved -> bool, kinds: seq<Unresolved>, i: nat)
    requires i < |kinds| && stuck(kinds[i])
    ensures ListAt(stuck, kinds, i + 1) == ListAt(stuck, kinds, i)
  {
    KeepSnoc(kinds, i, stuck);
    assert kinds[i..] == [kinds[i]] + kinds[i + 1..];
  }

  /** The loop of `service_call_allowed`: walks a copy of the list, adding what each area
      or device entry stands for and removing the entry if all its values resolved. A kind
      given in both containers sits in the list twice. */
  method ExpandTargets(resolve: Resolver, d: Demand, kinds: seq<Unresolved>)
    returns (entities: set<string>, unresolved: seq<Unresolved>)
    ensures unresolved == Keep(kinds, Stuck(resolve, d))
    ensures d.listed <= entities <= Targets(resolve, d)
    ensures forall k :: Kind(k) in kinds && Removable(resolve, d, Kind(k)) ==>
      Expanded(resolve, k, d.Values(k)) <= entities
  {
    entities, unresolved := d.listed, kinds;
    for i := 0 to |kinds|
      invariant unresolved == ListAt(Stuck(resolve, d), kinds, i)
      invariant d.listed <= entities <= Targets(resolve, d)
      invariant forall j :: 0 <= j < i && Removable(resolve, d, kinds[j]) ==>
        Expanded(resolve, kinds[j].kind, d.Values(kinds[j].kind)) <= entities
    {
      var u := kinds[i];
      assert Stuck(resolve, d)(u) == !Removable(resolve, d, u);
      var resolvedAll := false;
      if u.Expandable() {
        resolvedAll, entities := ExpandValues(resolve, u.kind, d.Values(u.kind), entities);
      }
      if resolvedAll {
        unresolved := RemoveEntry(Stuck(resolve, d), kinds, i);
      } else {
        KeepsEntry(Stuck(resolve, d), kinds, i);
      }
    }
    assert kinds[..|kinds|] == kinds;
  }

  /** If every entry of the list could be removed, the loop has collected exactly the
      call's targets and the call is resolvable; otherwise it is not. */
  lemma ExactlyCollected(resolve: Resolver, d: Demand, kinds: seq<Unresolved>, entities: set<string>)
    requires Summarises(kinds, d.beyond, d.areas, d.devices)
    requires d.listed <= entities <= Targets(resolve, d)
    requires forall k :: Kind(k) in kinds && Removable(resolve, d, Kind(k)) ==>
      Expanded(resolve, k, d.Values(k)) <= entities
    ensures (forall u :: u in kinds ==> Removable(resolve, d, u)) <==> Resolvable(resolve, d)
    ensures Resolvable(resolve, d) ==> entities == Targets(resolve, d)
  {
    if forall u :: u in kinds ==> Removable(resolve, d, u) {
      assert !d.beyond;
      assert Kind(AreaId) in kinds ==> Removable(resolve, d, Kind(AreaId));
      assert Kind(DeviceId) in kinds ==> Removable(resolve, d, Kind(DeviceId));
    }
    if Resolvable(resolve, d) {
      assert Removable(resolve, d, Kind(AreaId)) && Removable(resolve, d, Kind(DeviceId));
      assert Expanded(resolve, AreaId, d.Values(AreaId)) <= entities;
      assert Expanded(resolve, DeviceId, d.Values(DeviceId)) <= entities;
    }
  }

  /** `service_call_allowed`: the verdict is exact. */
  method ServiceCallAllowed(control: string -> bool, resolve: Resolver, serviceData: Json, target: Json)
    returns (allowed: bool)
    ensures allowed <==> Permitted(control, resolve, DemandOf(serviceData, target))
  {
    var entities, kinds := ResolveServiceTargets(serviceData, target);
    var unresolved;
    var d := DemandOf(serviceData, target);
    entities, unresolved := ExpandTargets(resolve, d, kinds);
    assert unresolved == [] <==> forall u :: u in kinds ==> Removable(resolve, d, u) by {
      assert forall u :: u in unresolved <==> u in kinds && !Removable(resolve, d, u);
      if unresolved != [] { assert unresolved[0] in unresolved; }
    }
    ListOfCall(serviceData, target);
    if kinds == [NoTarget] && d.listed == {} && d.areas == [] && d.devices == [] {
      assert kinds[0] == NoTarget && !Removable(resolve, d, kinds[0]);
      assert Targets(resolve, d) == {};
    } else {
      ExactlyCollected(resolve, d, kinds, entities);
    }
    if unresolved != [] || entities == {} { return false; }
    allowed := forall e | e in entities :: control(e);
  }

  // ---- what follows from exactness ----

  /** The two containers of a call are interchangeable. */
  lemma VerdictIsSymmetric(control: string -> bool, resolve: Resolver, serviceData: Json, target: Json)
    ensures Permitted(control, resolve, DemandOf(serviceData, target)) <==>
            Permitted(control, resolve, DemandOf(target, serviceData))
  {
    var d, d' := DemandOf(serviceData, target), DemandOf(target, serviceData);
    SameMembers(resolve, AreaId, d.areas, d'.areas);
    SameMembers(resolve, DeviceId, d.devices, d'.devices);
  }

  lemma SameMembers(resolve: Resolver, kind: TargetKind, xs: seq<Json>, ys: seq<Json>)
    requires forall x :: x in xs <==> x in ys
    ensures AllResolve(resolve, kind, xs) == AllResolve(resolve, kind, ys)
    ensures Expanded(resolve, kind, xs) == Expanded(resolve, kind, ys)
  {
    ExpandedMembers(resolve, kind, xs);
    ExpandedMembers(resolve, kind, ys);
  }

  predicate CallAllowed(p: UserPolicy, v: View, serviceData: Json, target: Json) {
    Permitted(ControlOf(p, v), ResolverOf(v), DemandOf(serviceData, target))
  }

  lemma {:induction false} SameExpansion(r1: Resolver, r2: Resolver, kind: TargetKind, values: seq<Json>)
    requires forall x :: x in values && r2(kind, x).Some? ==> r1(kind, x) == r2(kind, x)
    requires AllResolve(r2, kind, values)
    ensures AllResolve(r1, kind, values) && Expanded(r1, kind, values) == Expanded(r2, kind, values)
  {
    if values == [] {
    } else {
      var n := |values| - 1;
      assert forall v :: v in values <==> v in values[..n] || v == values[n];
      SameExpansion(r1, r2, kind, values[..n]);
    }
  }

  /** More control, and a resolver that answers at least as often with the same answers,
      never turn an accepted call down. */
  lemma PermittedMonotone(c1: string -> bool, c2: string -> bool, r1: Resolver, r2: Resolver, d: Demand)
    requires forall e :: c2(e) ==> c1(e)
    requires forall k, x :: r2(k, x).Some? ==> r1(k, x) == r2(k, x)
    requires Permitted(c2, r2, d)
    ensures Permitted(c1, r1, d)
  {
    SameExpansion(r1, r2, AreaId, d.areas);
    SameExpansion(r1, r2, DeviceId, d.devices);
  }

  /** A call accepted late, or under fewer rules, is accepted earlier or under more:
      accepted calls narrow with time and grow with grants. */
  lemma CallsAreMonotone(p: UserPolicy, q: UserPolicy, v1: View, v2: View, serviceData: Json, target: Json)
    requires GrantsAtLeast(q, p) && Later(v1, v2)
    requires CallAllowed(p, v2, serviceData, target)
    ensures CallAllowed(q, v1, serviceData, target)
  {
    AccessIsMonotone(p, q, v1, v2);
    forall k, x | ResolverOf(v2)(k, x).Some?
      ensures ResolverOf(v1)(k, x) == ResolverOf(v2)(k, x)
    {
      assert Resolve(v2, k, x).Some?;
    }
    var d := DemandOf(serviceData, target);
    PermittedMonotone(ControlOf(q, v1), ControlOf(p, v2), ResolverOf(v1), ResolverOf(v2), d);
  }

  /** The container gives parameters, if anything, and names no target. */
  predicate Targetless(c: Json) {
    !IsWildcard(c) && Listed(c) == {} && forall k: TargetKind :: !HasKind(c, k)
  }

  lemma AreaDemand(area: string, serviceData: Json)
    requires Targetless(serviceData)
    requires area != ""
    ensures DemandOf(serviceData, JObj(map["area_id" := JStr(area)])) == Demand(false, {}, [JStr(area)], [])
  {
    var target := JObj(map["area_id" := JStr(area)]);
    assert forall k: TargetKind :: Truthy(Get(target.fields, k.Key())) <==> k == AreaId;
    assert Values(target, AreaId) == [JStr(area)] && Values(target, DeviceId) == [];
    assert !Beyond(target) && !Beyond(serviceData);
  }

  /** On a fresh snapshot, a control grant on a non-empty area makes a call on that area
      succeed, whatever parameters it carries. */
  lemma AreaGrantAllowsAreaCall(p: UserPolicy, v: View, area: string, serviceData: Json)
    requires v.isFresh && area in p.control.areas && area != ""
    requires EntitiesInArea(v, JStr(area)).value != {}
    requires Targetless(serviceData)
    ensures CallAllowed(p, v, serviceData, JObj(map["area_id" := JStr(area)]))
  {
    AreaDemand(area, serviceData);
    PermittedInside(p, v, area, EntitiesInArea(v, JStr(area)).value);
  }

  lemma PermittedInside(p: UserPolicy, v: View, area: string, inside: set<string>)
    requires v.isFresh && area in p.control.areas
    requires inside == EntitiesInArea(v, JStr(area)).value != {}
    ensures Permitted(ControlOf(p, v), ResolverOf(v), Demand(false, {}, [JStr(area)], []))
  {
    var resolve, values := ResolverOf(v), [JStr(area)];
    assert resolve(AreaId, JStr(area)) == Some(inside);
    assert values[..0] == [];
    assert Expanded(resolve, AreaId, values) == inside;
  }
}
