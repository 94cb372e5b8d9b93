/** What the sidebar offers, the router opens. */
module DashboardCoherence {
  import opened JsonValues
  import opened Policies
  import opened Filters
  import opened Connections

  /** A `lovelace/config` for this path is forwarded, for a dashboard of the policy. */
  ghost predicate Opens(p: UserPolicy, path: Json) {
    forall msg: Fields :: Get(msg, "url_path") == path ==>
      var d := DecideLovelaceConfig(p, msg);
      d.Forward? && InSet(Get(d.frame, "url_path"), p.Dashboards())
  }

  /** The router's alias: no path, or the built-in one, standing for the user's default. */
  predicate Aliased(p: UserPolicy, path: Json) {
    (path == JNull || path == JStr("lovelace")) && "lovelace" !in p.Dashboards() && p.HasDefault()
  }

  /** Exactly which paths open. A missing path opens only as an alias: a user whose policy
      lists the built-in `lovelace` itself is refused without one. */
  lemma OpensExactly(p: UserPolicy, path: Json)
    ensures Opens(p, path) <==> InSet(path, p.Dashboards()) || Aliased(p, path)
    ensures "lovelace" in p.Dashboards() ==> !Opens(p, JNull) && Opens(p, JStr("lovelace"))
  {
    PathOpens(p, path);
    PathOpens(p, JNull);
    PathOpens(p, JStr("lovelace"));
  }

  lemma PathOpens(p: UserPolicy, path: Json)
    ensures Opens(p, path) <==> InSet(path, p.Dashboards()) || Aliased(p, path)
  {
    var msg: Fields := map["url_path" := path];
    assert Get(msg, "url_path") == path;
    if InSet(path, p.Dashboards()) || Aliased(p, path) {
      forall m: Fields | Get(m, "url_path") == path
        ensures DecideLovelaceConfig(p, m).Forward? &&
          InSet(Get(DecideLovelaceConfig(p, m).frame, "url_path"), p.Dashboards())
      {
        if Aliased(p, path) {
          assert p.defaultDashboard.value in p.Dashboards();
        }
      }
    } else {
      assert !DecideLovelaceConfig(p, msg).Forward?;
    }
  }

  /** Every panel that is kept or synthesized is an essential built-in or opens. */
  lemma PanelsOpen(p: UserPolicy, panels: Fields, key: string)
    requires PanelsFor(panels, p.Dashboards(), p.defaultDashboard).Done?
    requires key in PanelsFor(panels, p.Dashboards(), p.defaultDashboard).value
    ensures var panel := PanelsFor(panels, p.Dashboards(), p.defaultDashboard).value[key];
      panel.JObj? && (Essential(panel.fields) || Opens(p, Get(panel.fields, "url_path")))
  {
    var panel := PanelsFor(panels, p.Dashboards(), p.defaultDashboard).value[key];
    var kept := KeptPanels(panels, p.Dashboards());
    if key in kept && panel == kept[key] {
      OpensExactly(p, Get(panel.fields, "url_path"));
    } else {
      OpensExactly(p, JStr("lovelace"));
    }
  }

  /** Nothing else is taken away: each panel of the user's dashboards, and each essential one,
      is there as HA sent it, and besides them only the router's default entry may be new. */
  lemma PanelsAreKept(p: UserPolicy, panels: Fields, key: string)
    requires PanelsFor(panels, p.Dashboards(), p.defaultDashboard).Done?
    ensures var result := PanelsFor(panels, p.Dashboards(), p.defaultDashboard).value;
      var due := key in panels && panels[key].JObj? &&
        (Essential(panels[key].fields) || InSet(Get(panels[key].fields, "url_path"), p.Dashboards()));
      (due ==> key in result && result[key] == panels[key]) &&
      (!due && key != DEFAULT_PANEL_KEY ==> key !in result)
  {
    var kept := KeptPanels(panels, p.Dashboards());
    assert key in kept <==> key in panels && KeepsPanel(panels[key], p.Dashboards());
  }

  /** With more dashboards, no panel that was kept is lost. */
  lemma PanelsAreMonotone(p: UserPolicy, q: UserPolicy, panels: Fields, key: string)
    requires p.Dashboards() <= q.Dashboards() && key in KeptPanels(panels, p.Dashboards())
    requires PanelsFor(panels, q.Dashboards(), q.defaultDashboard).Done?
    ensures var result := PanelsFor(panels, q.Dashboards(), q.defaultDashboard).value;
      key in result && result[key] == panels[key]
  {
    PanelsAreKept(q, panels, key);
  }

  /** If the default dashboard is among HA's panels, the router's default entry exists. */
  lemma DefaultEntryExists(p: UserPolicy, panels: Fields)
    requires PanelsFor(panels, p.Dashboards(), p.defaultDashboard).Done?
    requires p.HasDefault() && p.defaultDashboard.value in panels
    ensures DEFAULT_PANEL_KEY in PanelsFor(panels, p.Dashboards(), p.defaultDashboard).value
  {}

  /** The landing panel written into the core event opens exactly for the users that have
      a default dashboard or the built-in one. */
  lemma LandingPanelOpens(p: UserPolicy)
    ensures Opens(p, JStr(LandingPanel(p))) <==> p.HasDefault() || "lovelace" in p.Dashboards()
  {
    OpensExactly(p, JStr(LandingPanel(p)));
  }
}
