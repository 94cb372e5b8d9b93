/** What is delivered for each type of command, read off HA's answer, the policy and the
    registry view themselves. */
module Payloads {
  import opened Collections
  import opened JsonValues
  import opened Registry
  import opened Policies
  import opened Evaluator
  import opened Filters
  import opened Commands
  import opened Connections
  import opened Runs
  import opened Correlation
  import opened Grants

  // ---- lists ----

  /** The elements, none for another shape. */
  function Elements(j: Json): seq<Json> {
    if j.JList? then j.items else []
  }

  /** The good elements of the list, in order; nothing for another shape. */
  predicate Selected(result: Json, out: Json, good: Json -> bool) {
    out.JList? && Selects(out.items, Elements(result), good)
  }

  predicate GoodState(p: UserPolicy, v: View, s: Json) {
    s.JObj? && Get(s.fields, "entity_id").JStr? && AllowedRead(p, v, Get(s.fields, "entity_id").s)
  }

  /** The entity an entry is about: `entity_id`, or `ei` for short. */
  predicate About(e: Json, id: Json) {
    e.JObj? && id == if Truthy(Get(e.fields, "entity_id")) then Get(e.fields, "entity_id") else Get(e.fields, "ei")
  }

  predicate GoodEntity(p: UserPolicy, v: View, e: Json) {
    exists x | x in Enumerable(p, v) :: About(e, JStr(x))
  }

  /** The device, or area, has an entity registered in the fresh snapshot that the user may read. */
  ghost predicate Owns(index: map<string, Option<string>>, p: UserPolicy, v: View, name: string) {
    v.isFresh && exists e :: e in index && index[e] == Some(name) && AllowedRead(p, v, e)
  }

  ghost predicate GoodDevice(p: UserPolicy, v: View, d: Json) {
    d.JObj? && Get(d.fields, "id").JStr? && Owns(v.snap.deviceOf, p, v, Get(d.fields, "id").s)
  }

  ghost predicate GoodArea(p: UserPolicy, v: View, a: Json) {
    a.JObj? && Get(a.fields, "area_id").JStr? && Owns(v.snap.areaOf, p, v, Get(a.fields, "area_id").s)
  }

  predicate NamesMine(p: UserPolicy, path: Json) {
    path.JStr? && Mine(p, path.s)
  }

  predicate GoodDashboard(p: UserPolicy, d: Json) {
    d.JObj? && NamesMine(p, Get(d.fields, "url_path"))
  }

  lemma KeepSelected(result: Json, keep: Json -> bool, good: Json -> bool)
    requires forall e :: e in Elements(result) ==> keep(e) == good(e)
    ensures Selected(result, JList(Keep(Elements(result), keep)), good)
  {
    KeepAgree(Elements(result), keep, good);
    KeepSelects(Elements(result), good);
  }

  /** An entry that is looked up by a list or an object. */
  predicate Poison(e: Json, key: EntryKey) {
    e.JObj? &&
    var id := match key
      case EntityKey => if Truthy(Get(e.fields, "entity_id")) then Get(e.fields, "entity_id") else Get(e.fields, "ei")
      case FieldKey(name) => Get(e.fields, name);
    id.JList? || id.JObj?
  }

  lemma EntriesExactly(result: Json, key: EntryKey, allowed: set<string>, good: Json -> bool)
    requires forall e :: good(e) <==> EntryIn(key, allowed)(e)
    ensures FilterEntries(result, key, allowed).Raised? <==> exists e :: e in Elements(result) && Poison(e, key)
    ensures FilterEntries(result, key, allowed).Done? ==>
      Selected(result, JList(FilterEntries(result, key, allowed).value), good)
  {
    forall e
      ensures Poisons(key, e) <==> Poison(e, key)
    {}
    KeepSelected(result, EntryIn(key, allowed), good);
  }

  lemma EntitiesExactly(p: UserPolicy, v: View, result: Json)
    ensures FilterEntityRegistry(result, Enumerable(p, v)).Raised? <==>
      exists e :: e in Elements(result) && Poison(e, EntityKey)
    ensures FilterEntityRegistry(result, Enumerable(p, v)).Done? ==>
      Selected(result, JList(FilterEntityRegistry(result, Enumerable(p, v)).value), (e: Json) => GoodEntity(p, v, e))
  {
    forall e
      ensures GoodEntity(p, v, e) <==> EntryIn(EntityKey, Enumerable(p, v))(e)
    {
      if e.JObj? && InSet(EntryId(e, EntityKey), Enumerable(p, v)) { assert About(e, JStr(EntryId(e, EntityKey).s)); }
    }
    EntriesExactly(result, EntityKey, Enumerable(p, v), (e: Json) => GoodEntity(p, v, e));
  }

  lemma DevicesExactly(p: UserPolicy, v: View, result: Json)
    requires v.snap.Aligned()
    ensures FilterByKey(result, "id", AllowedDeviceIds(p, v)).Raised? <==>
      exists e :: e in Elements(result) && Poison(e, FieldKey("id"))
    ensures FilterByKey(result, "id", AllowedDeviceIds(p, v)).Done? ==>
      Selected(result, JList(FilterByKey(result, "id", AllowedDeviceIds(p, v)).value), (e: Json) => GoodDevice(p, v, e))
  {
    forall e
      ensures GoodDevice(p, v, e) <==> EntryIn(FieldKey("id"), AllowedDeviceIds(p, v))(e)
    {
      if e.JObj? && Get(e.fields, "id").JStr? { DeviceOwned(p, v, Get(e.fields, "id").s); }
    }
    EntriesExactly(result, FieldKey("id"), AllowedDeviceIds(p, v), (e: Json) => GoodDevice(p, v, e));
  }

  lemma DeviceOwned(p: UserPolicy, v: View, d: string)
    requires v.snap.Aligned()
    ensures d in AllowedDeviceIds(p, v) <==> Owns(v.snap.deviceOf, p, v, d)
  {
    IndexesAreInverse(p, v, "", "", d);
    if Owns(v.snap.deviceOf, p, v, d) {
      var e :| e in v.snap.deviceOf && v.snap.deviceOf[e] == Some(d) && AllowedRead(p, v, e);
      assert DeviceOf(v, e) == Some(d);
    }
  }

  lemma AreasExactly(p: UserPolicy, v: View, result: Json)
    requires v.snap.Aligned()
    ensures FilterByKey(result, "area_id", AllowedAreaIds(p, v)).Raised? <==>
      exists e :: e in Elements(result) && Poison(e, FieldKey("area_id"))
    ensures FilterByKey(result, "area_id", AllowedAreaIds(p, v)).Done? ==>
      Selected(result, JList(FilterByKey(result, "area_id", AllowedAreaIds(p, v)).value),
               (e: Json) => GoodArea(p, v, e))
  {
    forall e
      ensures GoodArea(p, v, e) <==> EntryIn(FieldKey("area_id"), AllowedAreaIds(p, v))(e)
    {
      if e.JObj? && Get(e.fields, "area_id").JStr? { AreaOwned(p, v, Get(e.fields, "area_id").s); }
    }
    EntriesExactly(result, FieldKey("area_id"), AllowedAreaIds(p, v), (e: Json) => GoodArea(p, v, e));
  }

  lemma AreaOwned(p: UserPolicy, v: View, a: string)
    requires v.snap.Aligned()
    ensures a in AllowedAreaIds(p, v) <==> Owns(v.snap.areaOf, p, v, a)
  {
    IndexesAreInverse(p, v, "", a, "");
    if Owns(v.snap.areaOf, p, v, a) {
      var e :| e in v.snap.areaOf && v.snap.areaOf[e] == Some(a) && AllowedRead(p, v, e);
      assert AreaOf(v, e) == Some(a);
    }
  }

  lemma DashboardsExactly(p: UserPolicy, result: Json)
    ensures FilterLovelaceDashboards(result, p.Dashboards()).Raised? <==>
      exists e :: e in Elements(result) && Poison(e, FieldKey("url_path"))
    ensures FilterLovelaceDashboards(result, p.Dashboards()).Done? ==>
      Selected(result, JList(FilterLovelaceDashboards(result, p.Dashboards()).value), (e: Json) => GoodDashboard(p, e))
  {
    forall e
      ensures GoodDashboard(p, e) <==> EntryIn(FieldKey("url_path"), p.Dashboards())(e)
    {}
    EntriesExactly(result, FieldKey("url_path"), p.Dashboards(), (e: Json) => GoodDashboard(p, e));
  }

  // ---- objects ----

  /** The display list keeps all it says but the entities. */
  predicate RightDisplay(p: UserPolicy, v: View, result: Json, out: Json) {
    out.JObj? &&
    if !result.JObj? then
      out.fields == map["entity_categories" := JList([]), "entities" := JList([])]
    else
      && "entities" in out.fields && out.fields == result.fields["entities" := out.fields["entities"]]
      && Selected(Get(result.fields, "entities"), out.fields["entities"], (e: Json) => GoodEntity(p, v, e))
  }

  lemma DisplayExactly(p: UserPolicy, v: View, result: Json)
    ensures FilterEntityRegistryDisplay(result, Enumerable(p, v)).Raised? <==>
      result.JObj? && exists e :: e in Elements(Get(result.fields, "entities")) && Poison(e, EntityKey)
    ensures FilterEntityRegistryDisplay(result, Enumerable(p, v)).Done? ==>
      RightDisplay(p, v, result, JObj(FilterEntityRegistryDisplay(result, Enumerable(p, v)).value))
  {
    if result.JObj? {
      var entities := if "entities" in result.fields then result.fields["entities"] else JList([]);
      EntitiesExactly(p, v, entities);
      assert Elements(entities) == Elements(Get(result.fields, "entities"));
    }
  }

  /** The same configuration, but for the coordinates it has. */
  predicate RightConfig(result: Json, out: Json) {
    out.JObj? &&
    if !result.JObj? then out.fields == map[]
    else
      && out.fields.Keys == result.fields.Keys
      && forall k | k in result.fields ::
           out.fields[k] ==
             if k == "latitude" || k == "longitude" || k == "elevation" then JInt(0) else result.fields[k]
  }

  lemma ConfigExactly(config: Fields)
    ensures RightConfig(JObj(config), JObj(Redacted(config)))
  {}

  /** A panel the user keeps: one of their dashboards, or one the frontend cannot do without. */
  predicate GoodPanel(p: UserPolicy, panel: Json) {
    panel.JObj? &&
    (|| NamesMine(p, Get(panel.fields, "url_path"))
     || Get(panel.fields, "component_name") == JStr("profile")
     || Get(panel.fields, "component_name") == JStr("notfound")
     || Get(panel.fields, "component_name") == JStr("my"))
  }

  /** The default dashboard's panel, as the hidden built-in one. */
  predicate StandsIn(panel: Json, out: Json) {
    out == JObj((if panel.JObj? then panel.fields else map[])
                ["url_path" := JStr("lovelace")]["show_in_sidebar" := JBool(false)])
  }

  /** HA has no panel the user may keep as the built-in one, but their default dashboard's. */
  predicate LacksBuiltIn(p: UserPolicy, panels: Fields) {
    && !("lovelace" in panels && GoodPanel(p, panels["lovelace"]))
    && p.defaultDashboard.Some? && p.defaultDashboard.value != "" && p.defaultDashboard.value in panels
  }

  predicate RightPanels(p: UserPolicy, panels: Fields, out: Fields) {
    && (forall k | k in panels && GoodPanel(p, panels[k]) :: k in out && out[k] == panels[k])
    && (forall k | k in out :: (k in panels && GoodPanel(p, panels[k])) || (k == "lovelace" && LacksBuiltIn(p, panels)))
    && (LacksBuiltIn(p, panels) ==>
          "lovelace" in out && StandsIn(panels[p.defaultDashboard.value], out["lovelace"]))
  }

  /** What makes the panel filter raise. */
  predicate PoisonPanels(p: UserPolicy, panels: Fields) {
    || (exists k | k in panels :: panels[k].JObj? &&
          (Get(panels[k].fields, "url_path").JList? || Get(panels[k].fields, "url_path").JObj?))
    || (LacksBuiltIn(p, panels) &&
          var panel := panels[p.defaultDashboard.value];
          !panel.JObj? && panel != JList([]) && panel != JStr(""))
  }

  lemma KeepsGoodPanel(p: UserPolicy, panel: Json)
    ensures KeepsPanel(panel, p.Dashboards()) <==> GoodPanel(p, panel)
  {}

  lemma NeedsAliasExactly(p: UserPolicy, panels: Fields)
    ensures NeedsAlias(panels, p.Dashboards(), p.defaultDashboard) <==> LacksBuiltIn(p, panels)
  {
    if "lovelace" in panels { KeepsGoodPanel(p, panels["lovelace"]); }
  }

  lemma PanelsExactly(p: UserPolicy, panels: Fields)
    ensures PanelsFor(panels, p.Dashboards(), p.defaultDashboard).Raised? <==> PoisonPanels(p, panels)
    ensures PanelsFor(panels, p.Dashboards(), p.defaultDashboard).Done? ==>
      RightPanels(p, panels, PanelsFor(panels, p.Dashboards(), p.defaultDashboard).value)
  {
    NeedsAliasExactly(p, panels);
    forall k | k in panels
      ensures KeepsPanel(panels[k], p.Dashboards()) <==> GoodPanel(p, panels[k])
    {
      KeepsGoodPanel(p, panels[k]);
    }
  }

  // ---- results, by what the command asked for ----

  /** The right result for a command. */
  ghost predicate RightResult(command: Command, p: UserPolicy, v: View, result: Json, out: Json) {
    match command
    case GetStates => Selected(result, out, (s: Json) => GoodState(p, v, s))
    case EntityList => Selected(result, out, (e: Json) => GoodEntity(p, v, e))
    case EntityDisplay => RightDisplay(p, v, result, out)
    case DeviceList => Selected(result, out, (d: Json) => GoodDevice(p, v, d))
    case AreaList => Selected(result, out, (a: Json) => GoodArea(p, v, a))
    case LovelaceDashboards => Selected(result, out, (d: Json) => GoodDashboard(p, d))
    case GetConfig => RightConfig(result, out)
    case GetPanels =>
      out.JObj? && if result.JObj? then RightPanels(p, result.fields, out.fields) else out.fields == map[]
    case TokenList => out == if result.JList? then result else JList([])
    case _ => out == result
  }

  /** The answers that make the filter of a command raise, which ends the session. */
  ghost predicate PoisonResult(command: Command, p: UserPolicy, result: Json) {
    match command
    case EntityList => exists e :: e in Elements(result) && Poison(e, EntityKey)
    case EntityDisplay =>
      result.JObj? && exists e :: e in Elements(Get(result.fields, "entities")) && Poison(e, EntityKey)
    case DeviceList => exists e :: e in Elements(result) && Poison(e, FieldKey("id"))
    case AreaList => exists e :: e in Elements(result) && Poison(e, FieldKey("area_id"))
    case LovelaceDashboards => exists e :: e in Elements(result) && Poison(e, FieldKey("url_path"))
    case GetPanels => result.JObj? && PoisonPanels(p, result.fields)
    case _ => false
  }

  lemma StatesExactly(p: UserPolicy, v: View, result: Json)
    ensures FilteredResult(p, v, Transform.FilterStates, result).Done?
    ensures Selected(result, FilteredResult(p, v, Transform.FilterStates, result).value,
                     (s: Json) => GoodState(p, v, s))
  {
    forall s
      ensures ReadableState(ReadOf(p, v))(s) == GoodState(p, v, s)
    {
      assert StateEntity(s).Some? <==> s.JObj? && Get(s.fields, "entity_id").JStr?;
    }
    KeepSelected(result, ReadableState(ReadOf(p, v)), (s: Json) => GoodState(p, v, s));
  }

  /** The filter of a command raises exactly on these answers, and otherwise gives the right
      result. */
  lemma FilteredExactly(command: Command, p: UserPolicy, v: View, result: Json)
    requires TransformFor(command).Some? && v.snap.Aligned()
    ensures var filtered := FilteredResult(p, v, TransformFor(command).value, result);
      (filtered.Raised? <==> PoisonResult(command, p, result)) &&
      (filtered.Done? ==> RightResult(command, p, v, result, filtered.value))
  {
    match command
    case GetStates => StatesExactly(p, v, result);
    case EntityList => EntitiesExactly(p, v, result);
    case EntityDisplay => DisplayExactly(p, v, result);
    case DeviceList => DevicesExactly(p, v, result);
    case AreaList => AreasExactly(p, v, result);
    case LovelaceDashboards => DashboardsExactly(p, result);
    case GetConfig => if result.JObj? { ConfigExactly(result.fields); }
    case GetPanels => if result.JObj? { PanelsExactly(p, result.fields); }
    case _ =>
  }

  /** The two frames differ at most in this field. */
  predicate SameBut(a: Fields, b: Fields, key: string) {
    forall k | k in a.Keys + b.Keys && k != key :: k in a && k in b && a[k] == b[k]
  }

  /** The answer to an awaited command, as it reaches the client: a failure as it is, nothing
      and the end of the session for a poisonous result, and else the right result in the
      same frame. */
  ghost predicate RightAnswer(command: Command, p: UserPolicy, v: View, msg: Fields, s: ConnState, s': ConnState) {
    if !Truthy(Get(msg, "success")) then s'.open && s'.down == s.down + [Relayed(JObj(msg))]
    else if PoisonResult(command, p, Get(msg, "result")) then !s'.open && s'.down == s.down
    else
      s'.open && exists out: Fields ::
        && s'.down == s.down + [Relayed(JObj(out))] && SameBut(out, msg, "result")
        && RightResult(command, p, v, Get(msg, "result"), Get(out, "result"))
  }

  lemma AnswerExactly(command: Command, p: UserPolicy, v: View, s: ConnState, k: Key, msg: Fields)
    requires s.open && v.snap.Aligned() && Lookup(s.pending, k) == TransformFor(command)
    ensures RightAnswer(command, p, v, msg, s, OnResult(p, v, s, k, msg))
  {
    if TransformFor(command).None? || TransformFor(command).value.Passthrough? {
      Unfiltered(command, p, v, Get(msg, "result"));
      assert OnResult(p, v, s, k, msg).down == s.down + [Relayed(JObj(msg))];
      assert SameBut(msg, msg, "result");
    } else {
      FilteredAnswer(command, p, v, s, k, msg);
    }
  }

  lemma Unfiltered(command: Command, p: UserPolicy, v: View, result: Json)
    requires TransformFor(command).None? || TransformFor(command).value.Passthrough?
    ensures !PoisonResult(command, p, result) && RightResult(command, p, v, result, result)
  {}

  lemma FilteredAnswer(command: Command, p: UserPolicy, v: View, s: ConnState, k: Key, msg: Fields)
    requires s.open && v.snap.Aligned() && Lookup(s.pending, k) == TransformFor(command)
    requires TransformFor(command).Some? && !TransformFor(command).value.Passthrough?
    ensures RightAnswer(command, p, v, msg, s, OnResult(p, v, s, k, msg))
  {
    FilteredExactly(command, p, v, Get(msg, "result"));
    var filtered := FilteredResult(p, v, TransformFor(command).value, Get(msg, "result"));
    if Truthy(Get(msg, "success")) && filtered.Done? {
      var out := msg["result" := filtered.value];
      assert OnResult(p, v, s, k, msg).down == s.down + [Relayed(JObj(out))];
      assert SameBut(out, msg, "result") && Get(out, "result") == filtered.value;
    }
  }

  /** On every run with ids used once, the result of an outstanding command reaches the client
      exactly as it should. */
  lemma ResultsExactly(p: UserPolicy, es: seq<Event>, v: View, k: Key, m: Json)
    requires IdsOnce(es) && ResultKey(m) == Some(k) && k in LedgerOf(p, es).awaiting
    requires Run(p, es).open && v.snap.Aligned()
    ensures RightAnswer(CommandFor(LedgerOf(p, es), k), p, v, m.fields, Run(p, es), HaStep(p, v, Run(p, es), m))
  {
    RightFilters(p, es, k);
    AnswerExactly(CommandFor(LedgerOf(p, es), k), p, v, Run(p, es), k, m.fields);
  }

  // ---- events ----

  /** What is left of a section of additions or changes. */
  function Left(section: Json, p: UserPolicy, v: View): Fields {
    if !section.JObj? then map[]
    else map e | e in section.fields && AllowedRead(p, v, e) :: section.fields[e]
  }

  predicate GoodName(p: UserPolicy, v: View, name: Json) {
    name.JStr? && AllowedRead(p, v, name.s)
  }

  /** A removed name that is no string makes the filter raise. */
  predicate PoisonEvent(event: Fields) {
    exists x | x in Elements(Get(event, "r")) :: !x.JStr?
  }

  /** The event with its three sections reduced to readable entities and nothing else in it;
      sections that are left empty are left out. */
  predicate RightSections(p: UserPolicy, v: View, event: Fields, out: Fields) {
    && (forall k | k in out :: k == "a" || k == "c" || k == "r")
    && (if Left(Get(event, "a"), p, v) == map[] then "a" !in out
        else "a" in out && out["a"] == JObj(Left(Get(event, "a"), p, v)))
    && (if Left(Get(event, "c"), p, v) == map[] then "c" !in out
        else "c" in out && out["c"] == JObj(Left(Get(event, "c"), p, v)))
    && Selected(Get(event, "r"), if "r" in out then out["r"] else JList([]), (x: Json) => GoodName(p, v, x))
    && ("r" in out ==> out["r"] != JList([]))
  }

  lemma SectionsExactly(p: UserPolicy, v: View, event: Fields)
    ensures CompressedEvent(event, ReadOf(p, v)).Raised? <==> PoisonEvent(event)
    ensures CompressedEvent(event, ReadOf(p, v)).Done? ==>
      var kept := EventOf(PartsOf(event).Filtered(ReadOf(p, v)));
      RightSections(p, v, event, kept) &&
      CompressedEvent(event, ReadOf(p, v)).value == if kept == map[] then None else Some(kept)
  {
    var kept := PartsOf(event).Filtered(ReadOf(p, v));
    KeptSections(p, v, event);
    EventSections(kept);
    PartsOfEvent(kept);
  }

  lemma KeptSections(p: UserPolicy, v: View, event: Fields)
    ensures var kept := PartsOf(event).Filtered(ReadOf(p, v));
      kept.added == Left(Get(event, "a"), p, v) && kept.changed == Left(Get(event, "c"), p, v) &&
      Selected(Get(event, "r"), JList(kept.removed), (x: Json) => GoodName(p, v, x))
  {
    KeepSelected(Get(event, "r"), NameIn(ReadOf(p, v)), (x: Json) => GoodName(p, v, x));
  }

  /** An event made of sections has just these, the empty ones left out. */
  lemma EventSections(kept: Parts)
    ensures var out := EventOf(kept);
      (forall k | k in out :: k == "a" || k == "c" || k == "r") &&
      (if kept.added == map[] then "a" !in out else "a" in out && out["a"] == JObj(kept.added)) &&
      (if kept.changed == map[] then "c" !in out else "c" in out && out["c"] == JObj(kept.changed)) &&
      (if kept.removed == [] then "r" !in out else "r" in out && out["r"] == JList(kept.removed))
  {}

  /** Where the frontend lands: the user's default dashboard, or the built-in one. */
  function Landing(p: UserPolicy): string {
    if p.defaultDashboard.Some? && p.defaultDashboard.value != "" then p.defaultDashboard.value else "lovelace"
  }

  /** The event as it should reach the client on a subscription, `None` when it should not. */
  ghost predicate RightEvent(kind: SubKind, p: UserPolicy, v: View, event: Fields, out: Option<Fields>) {
    match kind
    case Entities =>
      if out.None? then RightSections(p, v, event, map[])
      else out.value != map[] && RightSections(p, v, event, out.value)
    case StateChanged =>
      var data := Get(event, "data");
      out == if data.JObj? && Get(data.fields, "entity_id").JStr? && AllowedRead(p, v, Get(data.fields, "entity_id").s)
             then Some(event) else None
    case SystemDataCore =>
      var value := Get(event, "value");
      out == Some(if value.JObj?
                  then event["value" := JObj(value.fields["default_panel" := JStr(Landing(p))])]
                  else event)
    case PassthroughEvent => out == Some(event)
  }

  /** An event on a kept subscription, as it reaches the client. */
  ghost predicate RightDelivery(kind: SubKind, p: UserPolicy, v: View, msg: Fields, s: ConnState, s': ConnState) {
    if !Get(msg, "event").JObj? then s' == s
    else if kind.Entities? && PoisonEvent(Get(msg, "event").fields) then !s'.open && s'.down == s.down
    else
      s'.open &&
      exists out :: RightEvent(kind, p, v, Get(msg, "event").fields, out) &&
        s'.down == if out.None? then s.down else s.down + [Relayed(JObj(msg["event" := JObj(out.value)]))]
  }

  lemma DeliveryExactly(kind: SubKind, p: UserPolicy, v: View, s: ConnState, k: Key, msg: Fields)
    requires s.open && Lookup(s.subs, k) == Some(kind)
    ensures RightDelivery(kind, p, v, msg, s, OnEvent(p, v, s, k, msg))
  {
    if Get(msg, "event").JObj? {
      var event := Get(msg, "event").fields;
      match kind
      case Entities => EntitiesDelivered(p, v, s, k, msg, event);
      case StateChanged => PlainDelivered(kind, p, v, s, k, msg, event,
        if StateChangedAllowed(event, ReadOf(p, v)) then Some(event) else None);
      case SystemDataCore => PlainDelivered(kind, p, v, s, k, msg, event, Some(WithLanding(p, event)));
      case PassthroughEvent => PlainDelivered(kind, p, v, s, k, msg, event, Some(event));
    }
  }

  lemma EntitiesDelivered(p: UserPolicy, v: View, s: ConnState, k: Key, msg: Fields, event: Fields)
    requires s.open && Lookup(s.subs, k) == Some(Entities) && Get(msg, "event") == JObj(event)
    ensures RightDelivery(Entities, p, v, msg, s, OnEvent(p, v, s, k, msg))
  {
    SectionsExactly(p, v, event);
    if !PoisonEvent(event) {
      var out := CompressedEvent(event, ReadOf(p, v)).value;
      assert RightEvent(Entities, p, v, event, out);
    }
  }

  lemma PlainDelivered(kind: SubKind, p: UserPolicy, v: View, s: ConnState, k: Key, msg: Fields, event: Fields,
                       out: Option<Fields>)
    requires s.open && Lookup(s.subs, k) == Some(kind) && Get(msg, "event") == JObj(event) && !kind.Entities?
    requires out == match kind
      case StateChanged => if StateChangedAllowed(event, ReadOf(p, v)) then Some(event) else None
      case SystemDataCore => Some(WithLanding(p, event))
      case _ => Some(event)
    ensures RightDelivery(kind, p, v, msg, s, OnEvent(p, v, s, k, msg))
  {
    assert RightEvent(kind, p, v, event, out);
    if out == Some(event) { assert msg["event" := JObj(event)] == msg; }
  }

  /** On every run with ids used once, an event on a kept subscription reaches the client
      exactly as it should. */
  lemma EventsExactly(p: UserPolicy, es: seq<Event>, v: View, k: Key, m: Json)
    requires IdsOnce(es) && EventKey(m) == Some(k) && SubOn(LedgerOf(p, es), k).Some? && Run(p, es).open
    ensures RightDelivery(SubOn(LedgerOf(p, es), k).value, p, v, m.fields, Run(p, es), HaStep(p, v, Run(p, es), m))
  {
    RightFilters(p, es, k);
    DeliveryExactly(SubOn(LedgerOf(p, es), k).value, p, v, Run(p, es), k, m.fields);
  }
}
