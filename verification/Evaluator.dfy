/** `PolicyEvaluator`: one user's policy against concrete entity ids at one instant. */
module Evaluator {
  import opened Collections
  import opened JsonValues
  import opened Registry
  import opened Policies

  /** `_match`: does a rule set name this entity, its domain or its (fresh) area? */
  predicate Match(rules: RuleSet, v: View, e: string) {
    || e in rules.entities
    || DomainOf(e) in rules.domains
    || (AreaOf(v, e).Some? && AreaOf(v, e).value in rules.areas)
  }

  predicate AllowedControl(p: UserPolicy, v: View, e: string) {
    Match(p.control, v, e)
  }

  predicate AllowedRead(p: UserPolicy, v: View, e: string) {
    AllowedControl(p, v, e) || Match(p.read, v, e)
  }

  /** The predicates as values, the way the filters take them. */
  function ControlOf(p: UserPolicy, v: View): string -> bool {
    e => AllowedControl(p, v, e)
  }

  function ReadOf(p: UserPolicy, v: View): string -> bool {
    e => AllowedRead(p, v, e)
  }

  /** The set behind `enumerable_read_entities`: read and control rules are united
      first and expanded through the registry together. */
  function Enumerable(p: UserPolicy, v: View): set<string> {
    p.read.entities + p.control.entities +
    EntitiesMatching(v, p.read.domains + p.control.domains, p.read.areas + p.control.areas)
  }

  function AllowedAreaIds(p: UserPolicy, v: View): set<string> {
    set e | e in Enumerable(p, v) && AreaOf(v, e).Some? :: AreaOf(v, e).value
  }

  function AllowedDeviceIds(p: UserPolicy, v: View): set<string> {
    set e | e in Enumerable(p, v) && DeviceOf(v, e).Some? :: DeviceOf(v, e).value
  }

  method EnumerableReadEntities(p: UserPolicy, registry: RegistryCache, now: real) returns (r: seq<string>)
    ensures r == Sorted(Enumerable(p, registry.ViewAt(now)))
  {
    var out := p.read.entities + p.control.entities;
    var domains := p.read.domains + p.control.domains;
    var areas := p.read.areas + p.control.areas;
    if domains != {} || areas != {} {
      var more := registry.EntitiesMatchingNow(domains, areas, now);
      out := out + more;
    } else {
      assert EntitiesMatching(registry.ViewAt(now), domains, areas) == {};
    }
    return Sorted(out);
  }

  function StaticIds(p: UserPolicy): set<string> {
    p.read.entities + p.control.entities
  }

  /** Enumeration never names an entity the per-entity predicate refuses, and on a
      fresh snapshot it misses none: it is the static ids together with every
      registered entity that the predicate accepts. A stale one is the static ids. */
  lemma EnumerationRefinesPredicate(p: UserPolicy, v: View)
    ensures forall e :: e in Enumerable(p, v) ==> AllowedRead(p, v, e)
    ensures v.isFresh ==> Enumerable(p, v) == StaticIds(p) + (set e | e in v.snap.areaOf && AllowedRead(p, v, e))
    ensures !v.isFresh ==> Enumerable(p, v) == StaticIds(p)
  {
    var registered := set e | e in v.snap.areaOf && AllowedRead(p, v, e);
    if v.isFresh {
      forall e
        ensures e in Enumerable(p, v) <==> e in StaticIds(p) + registered
      {
        if e in v.snap.areaOf {
          assert MatchesRules(v, e, p.read.domains + p.control.domains, p.read.areas + p.control.areas) <==>
            DomainOf(e) in p.read.domains || DomainOf(e) in p.control.domains ||
            (AreaOf(v, e).Some? && (AreaOf(v, e).value in p.read.areas || AreaOf(v, e).value in p.control.areas));
        }
      }
    }
  }

  ghost predicate OwnsReadableArea(p: UserPolicy, v: View, area: string) {
    exists e :: e in v.snap.areaOf && AreaOf(v, e) == Some(area) && AllowedRead(p, v, e)
  }

  ghost predicate OwnsReadableDevice(p: UserPolicy, v: View, device: string) {
    exists e :: e in v.snap.deviceOf && DeviceOf(v, e) == Some(device) && AllowedRead(p, v, e)
  }

  /** The visible areas and devices are exactly those owning a registered entity the
      user may read, and the inverse look-ups invert the forward maps. */
  lemma IndexesAreInverse(p: UserPolicy, v: View, e: string, area: string, device: string)
    requires v.snap.Aligned()
    ensures area in AllowedAreaIds(p, v) <==> OwnsReadableArea(p, v, area)
    ensures device in AllowedDeviceIds(p, v) <==> OwnsReadableDevice(p, v, device)
    ensures v.isFresh ==> (e in EntitiesInArea(v, JStr(area)).value <==> AreaOf(v, e) == Some(area))
    ensures v.isFresh ==> (e in EntitiesOfDevice(v, JStr(device)).value <==> DeviceOf(v, e) == Some(device))
    ensures v.isFresh ==> (e in EntitiesInArea(v, JNull).value <==> e in v.snap.areaOf && AreaOf(v, e) == None)
  {
    EnumerationRefinesPredicate(p, v);
    if OwnsReadableArea(p, v, area) {
      var x :| x in v.snap.areaOf && AreaOf(v, x) == Some(area) && AllowedRead(p, v, x);
      assert x in Enumerable(p, v);
    }
    if OwnsReadableDevice(p, v, device) {
      var x :| x in v.snap.deviceOf && DeviceOf(v, x) == Some(device) && AllowedRead(p, v, x);
      assert x in Enumerable(p, v);
    }
  }

  /** The same snapshot, possibly gone stale in between. */
  predicate Later(v1: View, v2: View) {
    v1.snap == v2.snap && (v2.isFresh ==> v1.isFresh)
  }

  /** Between refreshes the clock only ages the snapshot. */
  lemma ClockOnlyAges(registry: RegistryCache, t1: real, t2: real)
    requires t1 <= t2
    ensures Later(registry.ViewAt(t1), registry.ViewAt(t2))
  {}

  /** `q` grants at least what `p` grants: rules were added, or raised from read to control. */
  predicate Below(a: RuleSet, b: RuleSet) {
    a.entities <= b.entities && a.domains <= b.domains && a.areas <= b.areas
  }

  function Union(a: RuleSet, b: RuleSet): RuleSet {
    RuleSet(a.entities + b.entities, a.domains + b.domains, a.areas + b.areas)
  }

  predicate GrantsAtLeast(q: UserPolicy, p: UserPolicy) {
    Below(p.control, q.control) && Below(p.read, Union(q.read, q.control))
  }

  /** Access narrows as the snapshot ages and widens as rules are added, both at once. */
  lemma AccessIsMonotone(p: UserPolicy, q: UserPolicy, v1: View, v2: View)
    requires GrantsAtLeast(q, p) && Later(v1, v2)
    ensures forall e :: AllowedControl(p, v2, e) ==> AllowedControl(q, v1, e)
    ensures forall e :: AllowedRead(p, v2, e) ==> AllowedRead(q, v1, e)
    ensures Enumerable(p, v2) <= Enumerable(q, v1)
    ensures AllowedAreaIds(p, v2) <= AllowedAreaIds(q, v1)
    ensures AllowedDeviceIds(p, v2) <= AllowedDeviceIds(q, v1)
  {
    forall e | e in Enumerable(p, v2)
      ensures e in Enumerable(q, v1)
    {
    }
  }

  predicate StaticOrDomain(rules: RuleSet, e: string) {
    e in rules.entities || DomainOf(e) in rules.domains
  }

  /** Past `stale_max`, access is exactly the static entity and domain rules. */
  lemma StaleAccessIsStatic(p: UserPolicy, v: View)
    requires !v.isFresh
    ensures forall e :: AllowedControl(p, v, e) <==> StaticOrDomain(p.control, e)
    ensures forall e :: AllowedRead(p, v, e) <==> StaticOrDomain(p.control, e) || StaticOrDomain(p.read, e)
    ensures Enumerable(p, v) == StaticIds(p)
    ensures AllowedAreaIds(p, v) == {} && AllowedDeviceIds(p, v) == {}
  {}

  lemma {:induction false} DomainPrefix(d: string, rest: string)
    requires '.' !in d
    ensures DomainOf(d + "." + rest) == d
  {
    if d == "" {
      assert ("" + "." + rest)[0] == '.';
    } else {
      DomainPrefix(d[1..], rest);
      assert (d + "." + rest)[1..] == d[1..] + "." + rest;
      assert d == [d[0]] + d[1..];
    }
  }

  lemma {:induction false} LongerThanAll(s: set<string>) returns (n: nat)
    ensures forall x :: x in s ==> |x| < n
  {
    n := 0;
    if s == {} {
    } else {
      var x :| x in s;
      var m := LongerThanAll(s - {x});
      n := if |x| < m then m else |x| + 1;
    }
  }

  /** The documentation has domain rules deny on a stale snapshot. `allowed_read` never asks
      the snapshot for a domain: access narrows to the listed entities exactly when the
      policy has no domain rule. */
  lemma StaleIsListedOnlyExactly(p: UserPolicy, v: View)
    requires !v.isFresh && forall d :: d in p.read.domains + p.control.domains ==> '.' !in d
    ensures (forall e :: AllowedRead(p, v, e) <==> e in StaticIds(p)) <==> p.read.domains + p.control.domains == {}
  {
    if d :| d in p.read.domains + p.control.domains {
      var n := LongerThanAll(StaticIds(p));
      var e := d + "." + seq(n, i => 'x');
      DomainPrefix(d, seq(n, i => 'x'));
      assert AllowedRead(p, v, e) && e !in StaticIds(p);
    }
  }
}
