/** The payload filters shared by the two proxies. Each is stated as a function of the
    payload; the ones the gateway computes by filling dicts or lists step by step are
    methods proved against that function. */
module Filters {
  import opened Collections
  import opened JsonValues

  // ---- get_config ----

  predicate RedactedKey(key: string) {
    key == "latitude" || key == "longitude" || key == "elevation"
  }

  function Redacted(config: Fields): Fields {
    map k | k in config :: if RedactedKey(k) then JInt(0) else config[k]
  }

  method RedactHomeLocation(config: Fields) returns (redacted: Fields)
    ensures redacted == Redacted(config)
  {
    redacted := config;
    var keys := ["latitude", "longitude", "elevation"];
    for i := 0 to |keys|
      invariant redacted.Keys == config.Keys
      invariant forall k :: k in config ==> redacted[k] == if k in keys[..i] then JInt(0) else config[k]
    {
      assert keys[..i + 1] == keys[..i] + [keys[i]];
      if keys[i] in redacted {
        redacted := redacted[keys[i] := JInt(0)];
      }
    }
    assert keys[..|keys|] == keys;
    assert forall k :: k in keys <==> RedactedKey(k);
  }

  // ---- get_states ----

  /** The entity a state dict is about, if it names one. */
  function StateEntity(s: Json): Option<string> {
    if s.JObj? && Get(s.fields, "entity_id").JStr? then Some(Get(s.fields, "entity_id").s) else None
  }

  function ReadableState(read: string -> bool): Json -> bool {
    (s: Json) => StateEntity(s).Some? && read(StateEntity(s).value)
  }

  method FilterStates(read: string -> bool, states: seq<Json>) returns (kept: seq<Json>)
    ensures kept == Keep(states, ReadableState(read))
  {
    kept := [];
    for i := 0 to |states|
      invariant kept == Keep(states[..i], ReadableState(read))
    {
      KeepSnoc(states, i, ReadableState(read));
      var eid := StateEntity(states[i]);
      if eid.Some? && read(eid.value) {
        kept := kept + [states[i]];
      }
    }
    assert states[..|states|] == states;
  }

  // ---- subscribe_entities events ----

  function Restrict<V>(m: map<string, V>, allowed: string -> bool): map<string, V> {
    map k | k in m && allowed(k) :: m[k]
  }

  function NameIn(allowed: string -> bool): Json -> bool {
    (name: Json) => name.JStr? && allowed(name.s)
  }

  /** The three sections of a compressed event: added, changed, removed. */
  datatype Parts = Parts(added: Fields, changed: Fields, removed: seq<Json>) {
    /** Asking the policy about a removed name that is no string raises. */
    predicate Poisoned() {
      exists x | x in removed :: !x.JStr?
    }

    function Filtered(allowed: string -> bool): Parts {
      Parts(Restrict(added, allowed), Restrict(changed, allowed), Keep(removed, NameIn(allowed)))
    }
  }

  const NOTHING := Parts(map[], map[], [])

  /** An absent or misshapen section counts as empty. */
  function Section(event: Fields, key: string): Fields {
    if Get(event, key).JObj? then Get(event, key).fields else map[]
  }

  function PartsOf(event: Fields): Parts {
    Parts(Section(event, "a"), Section(event, "c"),
          if Get(event, "r").JList? then Get(event, "r").items else [])
  }

  /** An event with these sections; empty sections are left out. */
  function EventOf(p: Parts): Fields {
    (if p.added != map[] then map["a" := JObj(p.added)] else map[]) +
    (if p.changed != map[] then map["c" := JObj(p.changed)] else map[]) +
    (if p.removed != [] then map["r" := JList(p.removed)] else map[])
  }

  /** The pruned event, or `None` when nothing survives. */
  function CompressedEvent(event: Fields, allowed: string -> bool): Outcome<Option<Fields>> {
    if PartsOf(event).Poisoned() then Raised
    else
      var kept := PartsOf(event).Filtered(allowed);
      Done(if kept == NOTHING then None else Some(EventOf(kept)))
  }

  method FilterSection(section: Fields, allowed: string -> bool) returns (kept: Fields)
    ensures kept == Restrict(section, allowed)
  {
    kept := map[];
    var todo := section.Keys;
    while todo != {}
      invariant todo <= section.Keys
      invariant kept == map k | k in section && k !in todo && allowed(k) :: section[k]
    {
      var eid :| eid in todo;
      todo := todo - {eid};
      if allowed(eid) {
        kept := kept[eid := section[eid]];
      }
    }
  }

  /** The loop over the two dict sections. */
  method FilterSections(event: Fields, allowed: string -> bool) returns (out: Fields)
    ensures var kept := PartsOf(event).Filtered(allowed);
      out == EventOf(Parts(kept.added, kept.changed, []))
  {
    out := map[];
    ghost var kept := PartsOf(event).Filtered(allowed);
    var keys := ["a", "c"];
    for i := 0 to |keys|
      invariant out == EventOf(Parts(if i > 0 then kept.added else map[], if i > 1 then kept.changed else map[], []))
    {
      var section := Get(event, keys[i]);
      if section.JObj? {
        var some := FilterSection(section.fields, allowed);
        if some != map[] {
          out := out[keys[i] := JObj(some)];
        }
      }
    }
  }

  method FilterCompressedEntitiesEvent(event: Fields, allowed: string -> bool) returns (r: Outcome<Option<Fields>>)
    ensures r == CompressedEvent(event, allowed)
  {
    var out := FilterSections(event, allowed);
    if PartsOf(event).Poisoned() {
      return Raised;
    }
    var removed := Keep(PartsOf(event).removed, NameIn(allowed));
    if removed != [] {
      out := out["r" := JList(removed)];
    }
    ghost var kept := PartsOf(event).Filtered(allowed);
    assert out == EventOf(kept);
    PartsOfEvent(kept);
    return Done(if out == map[] then None else Some(out));
  }

  lemma PartsOfEvent(p: Parts)
    ensures PartsOf(EventOf(p)) == p
    ensures EventOf(p) == map[] <==> p == NOTHING
  {
    var e := EventOf(p);
    assert p.added != map[] ==> "a" in e;
    assert p.changed != map[] ==> "c" in e;
    assert p.removed != [] ==> "r" in e;
  }

  // ---- state_changed events ----

  function ChangedEntity(event: Fields): Option<string> {
    var data := Get(event, "data");
    if data.JObj? then StateEntity(data) else None
  }

  predicate StateChangedAllowed(event: Fields, allowed: string -> bool) {
    ChangedEntity(event).Some? && allowed(ChangedEntity(event).value)
  }

  // ---- registries and dashboards ----

  /** The key a registry entry is filtered by. */
  datatype EntryKey = EntityKey | FieldKey(name: string)

  /** `list_for_display` abbreviates `entity_id` to `ei`. */
  function EntryId(e: Json, key: EntryKey): Json
    requires e.JObj?
  {
    match key
    case EntityKey => Or(Get(e.fields, "entity_id"), Get(e.fields, "ei"))
    case FieldKey(name) => Get(e.fields, name)
  }

  /** Looking up a list or dict in a set raises. */
  predicate Poisons(key: EntryKey, e: Json) {
    e.JObj? && Unhashable(EntryId(e, key))
  }

  function EntryIn(key: EntryKey, allowed: set<string>): Json -> bool {
    (e: Json) => e.JObj? && InSet(EntryId(e, key), allowed)
  }

  /** `[e for e in entries if isinstance(e, dict) and id(e) in allowed]`, empty on any other shape. */
  function FilterEntries(entries: Json, key: EntryKey, allowed: set<string>): Outcome<seq<Json>> {
    if !entries.JList? then Done([])
    else if exists e | e in entries.items :: Poisons(key, e) then Raised
    else Done(Keep(entries.items, EntryIn(key, allowed)))
  }

  function FilterEntityRegistry(entries: Json, allowed: set<string>): Outcome<seq<Json>> {
    FilterEntries(entries, EntityKey, allowed)
  }

  function FilterEntityRegistryDisplay(result: Json, allowed: set<string>): Outcome<Fields> {
    if !result.JObj? then Done(map["entity_categories" := JList([]), "entities" := JList([])])
    else
      var entities := if "entities" in result.fields then result.fields["entities"] else JList([]);
      match FilterEntityRegistry(entities, allowed)
      case Raised => Raised
      case Done(kept) => Done(result.fields["entities" := JList(kept)])
  }

  function FilterByKey(entries: Json, key: string, allowed: set<string>): Outcome<seq<Json>> {
    FilterEntries(entries, FieldKey(key), allowed)
  }

  function FilterLovelaceDashboards(dashboards: Json, allowed: set<string>): Outcome<seq<Json>> {
    FilterEntries(dashboards, FieldKey("url_path"), allowed)
  }

  // ---- get_panels ----

  const DEFAULT_PANEL_KEY := "lovelace"

  predicate Essential(panel: Fields) {
    var name := Get(panel, "component_name");
    name == JStr("profile") || name == JStr("notfound") || name == JStr("my")
  }

  predicate KeepsPanel(panel: Json, dashboards: set<string>) {
    panel.JObj? && (InSet(Get(panel.fields, "url_path"), dashboards) || Essential(panel.fields))
  }

  /** `dict(panel)` for the shapes that convert; anything else raises. */
  function DictOf(panel: Json): Outcome<Fields> {
    match panel
    case JObj(fields) => Done(fields)
    case JList(items) => if items == [] then Done(map[]) else Raised
    case JStr(s) => if s == "" then Done(map[]) else Raised
    case _ => Raised
  }

  function Alias(panel: Fields): Json {
    JObj(panel["url_path" := JStr(DEFAULT_PANEL_KEY)]["show_in_sidebar" := JBool(false)])
  }

  predicate PoisonedPanel(panel: Json) {
    panel.JObj? && Unhashable(Get(panel.fields, "url_path"))
  }

  function KeptPanels(panels: Fields, dashboards: set<string>): Fields {
    map k | k in panels && KeepsPanel(panels[k], dashboards) :: panels[k]
  }

  predicate NeedsAlias(panels: Fields, dashboards: set<string>, default: Option<string>) {
    && DEFAULT_PANEL_KEY !in KeptPanels(panels, dashboards)
    && default.Some? && default.value != "" && default.value in panels
  }

  function PanelsFor(panels: Fields, dashboards: set<string>, default: Option<string>): Outcome<Fields> {
    if exists k | k in panels :: PoisonedPanel(panels[k]) then Raised
    else if NeedsAlias(panels, dashboards, default) then
      match DictOf(panels[default.value])
      case Raised => Raised
      case Done(panel) => Done(KeptPanels(panels, dashboards)[DEFAULT_PANEL_KEY := Alias(panel)])
    else Done(KeptPanels(panels, dashboards))
  }

  method FilterPanels(panels: Fields, dashboards: set<string>, default: Option<string>) returns (r: Outcome<Fields>)
    ensures r == PanelsFor(panels, dashboards, default)
  {
    var kept: Fields := map[];
    var todo := panels.Keys;
    while todo != {}
      invariant todo <= panels.Keys
      invariant kept == map k | k in panels && k !in todo && KeepsPanel(panels[k], dashboards) :: panels[k]
      invariant forall k :: k in panels && k !in todo ==> !PoisonedPanel(panels[k])
    {
      var key :| key in todo;
      todo := todo - {key};
      var panel := panels[key];
      if panel.JObj? {
        if Unhashable(Get(panel.fields, "url_path")) {
          return Raised;
        }
        if InSet(Get(panel.fields, "url_path"), dashboards) || Essential(panel.fields) {
          kept := kept[key := panel];
        }
      }
    }
    assert kept == KeptPanels(panels, dashboards);
    if DEFAULT_PANEL_KEY !in kept && default.Some? && default.value != "" && default.value in panels {
      var alias := DictOf(panels[default.value]);
      if alias.Raised? {
        return Raised;
      }
      kept := kept[DEFAULT_PANEL_KEY := Alias(alias.value)];
    }
    return Done(kept);
  }
}
