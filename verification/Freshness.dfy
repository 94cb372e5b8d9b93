/** For how long a registry snapshot counts: what the clock, the age limit and the refreshes
    do to access, over whole histories of the gateway. */
module GatewayFreshness {
  import opened Registry
  import opened Policies
  import opened Evaluator
  import opened Grants
  import opened GatewaySystem
  import PolicyAdmin

  /** The cache object: a snapshot fetched at `fetchedAt` counts up to and including
      `staleMax` later; one never fetched does not count. */
  lemma CacheAgesExactly(registry: RegistryCache, now: real)
    ensures registry.ViewAt(now) ==
      Registry.View(registry.fetchedAt != 0.0 && now <= registry.fetchedAt + registry.staleMax,
                    Snapshot(registry.entityArea, registry.entityDevice))
  {}

  ghost predicate NoRefresh(actions: seq<Action>) {
    forall a :: a in actions ==> !a.Refresh?
  }

  lemma {:induction false} SnapshotStays(c: Config, s: System, actions: seq<Action>)
    requires NoRefresh(actions)
    ensures After(c, s, actions).snap == s.snap && After(c, s, actions).fetchedAt == s.fetchedAt
  {
    if actions == [] {
    } else {
      var n := |actions| - 1;
      assert actions[n] in actions;
      SnapshotStays(c, s, actions[..n]);
    }
  }

  /** What is asked of the registry after a refresh at `t0`, whatever happens in between: the
      snapshot of that refresh, counting until `staleMax` after it. */
  lemma RefreshLasts(c: Config, s: System, snap: Snapshot, rest: seq<Action>)
    requires NoRefresh(rest)
    ensures After(c, Next(c, s, Refresh(snap)), rest).View(c.staleMax) ==
      Registry.View(s.now != 0.0 && After(c, Next(c, s, Refresh(snap)), rest).now <= s.now + c.staleMax, snap)
  {
    SnapshotStays(c, Next(c, s, Refresh(snap)), rest);
  }

  /** No area counts: the listed entities and domains. */
  ghost predicate Static(rules: RuleSet, e: string) {
    e in rules.entities || exists d :: d in rules.domains && InDomain(e, d)
  }

  ghost predicate InArea(rules: RuleSet, snap: Snapshot, e: string) {
    e in snap.areaOf && snap.areaOf[e].Some? && snap.areaOf[e].value in rules.areas
  }

  /** Access under a view is static. */
  ghost predicate AccessIsStatic(p: UserPolicy, v: View, e: string) {
    && (AllowedControl(p, v, e) <==> Static(p.control, e))
    && (AllowedRead(p, v, e) <==> Static(p.control, e) || Static(p.read, e))
    && (e in Enumerable(p, v) <==> e in p.control.entities || e in p.read.entities)
    && AllowedAreaIds(p, v) == {} && AllowedDeviceIds(p, v) == {}
  }

  /** Access under a view follows this snapshot. */
  ghost predicate AccessFollows(p: UserPolicy, v: View, snap: Snapshot, e: string) {
    && (AllowedControl(p, v, e) <==> Static(p.control, e) || InArea(p.control, snap, e))
    && (AllowedRead(p, v, e) <==>
          Static(p.control, e) || InArea(p.control, snap, e) || Static(p.read, e) || InArea(p.read, snap, e))
    && (e in Enumerable(p, v) <==>
          || e in p.control.entities || e in p.read.entities
          || (e in snap.areaOf && AllowedRead(p, v, e)))
  }

  lemma StaleView(p: UserPolicy, v: View, e: string)
    requires !v.isFresh
    ensures AccessIsStatic(p, v, e)
  {
    AccessExactly(p, v, e);
    EnumerationExactly(p, v, e);
  }

  lemma FreshView(p: UserPolicy, v: View, e: string)
    requires v.isFresh
    ensures AccessFollows(p, v, v.snap, e)
  {
    AccessExactly(p, v, e);
    EnumerationExactly(p, v, e);
  }

  /** After a refresh, while no other comes: access follows the refreshed snapshot up to the
      age limit, and is static from then on. (A clock that reads exactly zero at the refresh
      makes it count as never fetched.) */
  lemma AccessAges(c: Config, s: System, snap: Snapshot, rest: seq<Action>, p: UserPolicy, e: string)
    requires NoRefresh(rest)
    ensures var t := After(c, Next(c, s, Refresh(snap)), rest);
      if s.now != 0.0 && t.now <= s.now + c.staleMax
      then AccessFollows(p, t.View(c.staleMax), snap, e)
      else AccessIsStatic(p, t.View(c.staleMax), e)
  {
    RefreshLasts(c, s, snap, rest);
    var t := After(c, Next(c, s, Refresh(snap)), rest);
    if s.now != 0.0 && t.now <= s.now + c.staleMax {
      FreshView(p, t.View(c.staleMax), e);
    } else {
      StaleView(p, t.View(c.staleMax), e);
    }
  }

  /** Before the first refresh access is static. */
  lemma UnfetchedIsStatic(c: Config, now: real, fileExists: bool, rules: PolicyAdmin.State, actions: seq<Action>,
                          p: UserPolicy, e: string)
    requires NoRefresh(actions)
    ensures AccessIsStatic(p, After(c, Start(now, fileExists, rules), actions).View(c.staleMax), e)
  {
    SnapshotStays(c, Start(now, fileExists, rules), actions);
    StaleView(p, After(c, Start(now, fileExists, rules), actions).View(c.staleMax), e);
  }
}
