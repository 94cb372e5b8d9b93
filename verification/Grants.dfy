/** What a policy grants, read off the policy, the registry snapshot and the call itself. */
module Grants {
  import opened Collections
  import opened JsonValues
  import opened Registry
  import opened Policies
  import opened Evaluator
  import opened ServiceCalls

  // ---- access ----

  /** The part of the id before its first dot is `d`; without a dot it is the whole id. */
  predicate InDomain(e: string, d: string) {
    '.' !in d && (e == d || (|e| > |d| && e[..|d|] == d && e[|d|] == '.'))
  }

  lemma {:induction false} DomainExactly(e: string, d: string)
    ensures DomainOf(e) == d <==> InDomain(e, d)
  {
    if e == "" || e[0] == '.' {
    } else if d == "" {
    } else {
      DomainExactly(e[1..], d[1..]);
      assert d == [d[0]] + d[1..] && e == [e[0]] + e[1..];
      if InDomain(e, d) { assert e[..|d|][1..] == e[1..][..|d| - 1] && e[0] == d[0]; }
      if e[0] == d[0] && InDomain(e[1..], d[1..]) { assert e[..|d|] == [e[0]] + e[1..][..|d| - 1] || e == d; }
    }
  }

  /** Some rule of the set is for this entity: the entity itself, its domain, or the area the
      fresh snapshot registers it in. */
  ghost predicate RuledBy(rules: RuleSet, v: View, e: string) {
    || e in rules.entities
    || (exists d :: d in rules.domains && InDomain(e, d))
    || (v.isFresh && e in v.snap.areaOf && v.snap.areaOf[e].Some? && v.snap.areaOf[e].value in rules.areas)
  }

  lemma MatchExactly(rules: RuleSet, v: View, e: string)
    ensures Match(rules, v, e) <==> RuledBy(rules, v, e)
  {
    DomainExactly(e, DomainOf(e));
    forall d | d in rules.domains && InDomain(e, d)
      ensures DomainOf(e) == d
    {
      DomainExactly(e, d);
    }
  }

  /** Control comes from control rules alone, reading from rules of either level, on every
      view, fresh or stale. */
  lemma AccessExactly(p: UserPolicy, v: View, e: string)
    ensures AllowedControl(p, v, e) <==> RuledBy(p.control, v, e)
    ensures AllowedRead(p, v, e) <==> RuledBy(p.control, v, e) || RuledBy(p.read, v, e)
  {
    MatchExactly(p.control, v, e);
    MatchExactly(p.read, v, e);
  }

  /** The enumeration, likewise: the listed ids, and while the snapshot is fresh whatever it
      registers that some rule covers. */
  lemma EnumerationExactly(p: UserPolicy, v: View, e: string)
    ensures e in Enumerable(p, v) <==>
      || e in p.read.entities || e in p.control.entities
      || (v.isFresh && e in v.snap.areaOf && (RuledBy(p.control, v, e) || RuledBy(p.read, v, e)))
  {
    EnumerationRefinesPredicate(p, v);
    AccessExactly(p, v, e);
  }

  /** The user's dashboards: the allowed ones and the default. */
  predicate Mine(p: UserPolicy, path: string) {
    path in p.allowedDashboards || (path != "" && p.defaultDashboard == Some(path))
  }

  // ---- service calls ----

  /** The field of a container, when it is an object; null otherwise. */
  function FieldOf(c: Json, key: string): Json {
    if c.JObj? then Get(c.fields, key) else JNull
  }

  /** The container's field gives this value, alone or in a list; an empty field gives none. */
  predicate Gives(c: Json, key: string, x: Json) {
    var field := FieldOf(c, key);
    Truthy(field) && if field.JList? then x in field.items else x == field
  }

  /** The container lists this entity by its id. */
  predicate ListsEntity(c: Json, e: string) {
    var field := FieldOf(c, "entity_id");
    || (field == JStr(e) && e != "all" && e != "none")
    || (field.JList? && JStr(e) in field.items)
  }

  predicate RegisteredAs(index: map<string, Option<string>>, e: string, x: Json) {
    e in index && x == match index[e] case None => JNull case Some(name) => JStr(name)
  }

  /** The container addresses the entity, by id, or through an area or a device of the snapshot. */
  ghost predicate Addresses(c: Json, v: View, e: string) {
    || ListsEntity(c, e)
    || (exists x :: Gives(c, "area_id", x) && RegisteredAs(v.snap.areaOf, e, x))
    || (exists x :: Gives(c, "device_id", x) && RegisteredAs(v.snap.deviceOf, e, x))
  }

  /** What the container asks for can be told: no wildcard, label or floor, and areas and
      devices only while the snapshot is fresh. */
  ghost predicate Tellable(c: Json, v: View) {
    && FieldOf(c, "entity_id") != JStr("all") && FieldOf(c, "entity_id") != JStr("none")
    && !Truthy(FieldOf(c, "label_id")) && !Truthy(FieldOf(c, "floor_id"))
    && (v.isFresh || ((forall x :: !Gives(c, "area_id", x)) && (forall x :: !Gives(c, "device_id", x))))
  }

  /** The call addresses the entity, through either container. */
  ghost predicate CallAddresses(v: View, serviceData: Json, target: Json, e: string) {
    Addresses(serviceData, v, e) || Addresses(target, v, e)
  }

  /** The call is within the policy's control rules. */
  ghost predicate MayCall(p: UserPolicy, v: View, serviceData: Json, target: Json) {
    && Tellable(serviceData, v) && Tellable(target, v)
    && (exists e :: CallAddresses(v, serviceData, target, e))
    && (forall e :: CallAddresses(v, serviceData, target, e) ==> RuledBy(p.control, v, e))
  }

  lemma ValuesGiven(c: Json, kind: TargetKind, x: Json)
    ensures x in Values(c, kind) <==> Gives(c, kind.Key(), x)
  {}

  lemma ListedExactly(c: Json, e: string)
    ensures e in Listed(c) <==> ListsEntity(c, e)
  {}

  lemma AreaAddressed(v: View, d: Demand, e: string)
    requires v.isFresh
    ensures e in Expanded(ResolverOf(v), AreaId, d.areas) <==>
      exists x :: x in d.areas && RegisteredAs(v.snap.areaOf, e, x)
  {
    ExpandedMembers(ResolverOf(v), AreaId, d.areas);
    forall x
      ensures ResolverOf(v)(AreaId, x).Some?
      ensures e in ResolverOf(v)(AreaId, x).value <==> RegisteredAs(v.snap.areaOf, e, x)
    {
      assert ResolverOf(v)(AreaId, x) == EntitiesInArea(v, x);
    }
  }

  lemma DeviceAddressed(v: View, d: Demand, e: string)
    requires v.isFresh
    ensures e in Expanded(ResolverOf(v), DeviceId, d.devices) <==>
      exists x :: x in d.devices && RegisteredAs(v.snap.deviceOf, e, x)
  {
    ExpandedMembers(ResolverOf(v), DeviceId, d.devices);
    forall x
      ensures ResolverOf(v)(DeviceId, x).Some?
      ensures e in ResolverOf(v)(DeviceId, x).value <==> RegisteredAs(v.snap.deviceOf, e, x)
    {
      assert ResolverOf(v)(DeviceId, x) == EntitiesOfDevice(v, x);
    }
  }

  lemma TargetsAddressed(v: View, serviceData: Json, target: Json, e: string)
    requires Resolvable(ResolverOf(v), DemandOf(serviceData, target))
    ensures e in Targets(ResolverOf(v), DemandOf(serviceData, target)) <==>
      Addresses(serviceData, v, e) || Addresses(target, v, e)
  {
    var d := DemandOf(serviceData, target);
    ListedExactly(serviceData, e);
    ListedExactly(target, e);
    forall x
      ensures x in d.areas <==> Gives(serviceData, "area_id", x) || Gives(target, "area_id", x)
      ensures x in d.devices <==> Gives(serviceData, "device_id", x) || Gives(target, "device_id", x)
    {
      ValuesGiven(serviceData, AreaId, x);
      ValuesGiven(target, AreaId, x);
      ValuesGiven(serviceData, DeviceId, x);
      ValuesGiven(target, DeviceId, x);
    }
    if v.isFresh {
      AreaAddressed(v, d, e);
      DeviceAddressed(v, d, e);
    } else {
      StaleResolvesNothing(v, d);
    }
  }

  lemma StaleResolvesNothing(v: View, d: Demand)
    requires !v.isFresh
    ensures AllResolve(ResolverOf(v), AreaId, d.areas) <==> d.areas == []
    ensures AllResolve(ResolverOf(v), DeviceId, d.devices) <==> d.devices == []
  {
    if d.areas != [] { assert d.areas[0] in d.areas && ResolverOf(v)(AreaId, d.areas[0]).None?; }
    if d.devices != [] { assert d.devices[0] in d.devices && ResolverOf(v)(DeviceId, d.devices[0]).None?; }
  }

  lemma FreshResolvesAll(v: View, d: Demand)
    requires v.isFresh
    ensures AllResolve(ResolverOf(v), AreaId, d.areas) && AllResolve(ResolverOf(v), DeviceId, d.devices)
  {}

  lemma GivesNothing(c: Json, kind: TargetKind)
    ensures Values(c, kind) == [] <==> forall x :: !Gives(c, kind.Key(), x)
  {
    if Values(c, kind) != [] {
      ValuesGiven(c, kind, Values(c, kind)[0]);
    }
    forall x
      ensures x in Values(c, kind) <==> Gives(c, kind.Key(), x)
    {
      ValuesGiven(c, kind, x);
    }
  }

  lemma TellableExactly(v: View, serviceData: Json, target: Json)
    ensures Resolvable(ResolverOf(v), DemandOf(serviceData, target)) <==>
      Tellable(serviceData, v) && Tellable(target, v)
  {
    var d := DemandOf(serviceData, target);
    if v.isFresh {
      FreshResolvesAll(v, d);
    } else {
      StaleResolvesNothing(v, d);
      GivesNothing(serviceData, AreaId);
      GivesNothing(target, AreaId);
      GivesNothing(serviceData, DeviceId);
      GivesNothing(target, DeviceId);
    }
  }

  lemma CoveredExactly(p: UserPolicy, v: View, targets: set<string>, addressed: string -> bool)
    requires forall e :: e in targets <==> addressed(e)
    ensures (targets != {} && forall e | e in targets :: ControlOf(p, v)(e)) <==>
      (exists e :: addressed(e)) && (forall e :: addressed(e) ==> RuledBy(p.control, v, e))
  {
    forall e
      ensures ControlOf(p, v)(e) <==> RuledBy(p.control, v, e)
    {
      AccessExactly(p, v, e);
    }
    if targets != {} {
      var e :| e in targets;
      assert addressed(e);
    }
  }

  /** The verdict on a service call, from the call and the policy themselves: it can be told
      what it addresses, it addresses something, and control rules cover all of it. */
  lemma CallExactly(p: UserPolicy, v: View, serviceData: Json, target: Json)
    ensures CallAllowed(p, v, serviceData, target) <==> MayCall(p, v, serviceData, target)
  {
    var resolve, d := ResolverOf(v), DemandOf(serviceData, target);
    TellableExactly(v, serviceData, target);
    if Resolvable(resolve, d) {
      forall e
        ensures e in Targets(resolve, d) <==> CallAddresses(v, serviceData, target, e)
      {
        TargetsAddressed(v, serviceData, target, e);
      }
      CoveredExactly(p, v, Targets(resolve, d), e => CallAddresses(v, serviceData, target, e));
    }
  }

  /** Read rules, dashboards and the rest have no say in it. */
  lemma CallsNeedControl(p: UserPolicy, q: UserPolicy, v: View, serviceData: Json, target: Json)
    ensures p.control == q.control ==>
      (CallAllowed(p, v, serviceData, target) <==> CallAllowed(q, v, serviceData, target))
    ensures p.control == RuleSet({}, {}, {}) ==> !CallAllowed(p, v, serviceData, target)
  {
    CallExactly(p, v, serviceData, target);
    CallExactly(q, v, serviceData, target);
  }
}
