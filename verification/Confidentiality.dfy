/** What reaches the client names nothing the user may not see, and what the user may not
    see has no influence on what reaches the client. */
module Confidentiality {
  import opened Collections
  import opened JsonValues
  import opened Registry
  import opened Policies
  import opened Evaluator
  import opened Filters
  import opened Commands
  import opened Connections
  import opened Runs
  import opened Correlation

  // ---- clean payloads ----

  predicate Named(name: Json, ok: string -> bool) {
    name.JStr? && ok(name.s)
  }

  function AreaSeen(p: UserPolicy, v: View): string -> bool {
    a => a in AllowedAreaIds(p, v)
  }

  function DeviceSeen(p: UserPolicy, v: View): string -> bool {
    d => d in AllowedDeviceIds(p, v)
  }

  function DashboardSeen(p: UserPolicy): string -> bool {
    d => d in p.Dashboards()
  }

  /** A list of objects, each identified by something the user may see. */
  predicate ListOf(result: Json, key: EntryKey, seen: string -> bool) {
    result.JList? && forall e | e in result.items :: e.JObj? && Named(EntryId(e, key), seen)
  }

  predicate CleanPanel(p: UserPolicy, key: string, panel: Json) {
    && panel.JObj?
    && (|| Essential(panel.fields)
        || Named(Get(panel.fields, "url_path"), DashboardSeen(p))
        || (key == DEFAULT_PANEL_KEY && p.HasDefault() && Get(panel.fields, "url_path") == JStr(DEFAULT_PANEL_KEY)))
  }

  /** The results that may be delivered for a command. */
  predicate CleanResult(p: UserPolicy, v: View, command: Command, result: Json) {
    match command
    case GetStates =>
      result.JList? && forall s | s in result.items :: StateEntity(s).Some? && AllowedRead(p, v, StateEntity(s).value)
    case EntityList => ListOf(result, EntityKey, ReadOf(p, v))
    case EntityDisplay => result.JObj? && "entities" in result.fields &&
      ListOf(result.fields["entities"], EntityKey, ReadOf(p, v))
    case DeviceList => ListOf(result, FieldKey("id"), DeviceSeen(p, v))
    case AreaList => ListOf(result, FieldKey("area_id"), AreaSeen(p, v))
    case LovelaceDashboards => ListOf(result, FieldKey("url_path"), DashboardSeen(p))
    case GetPanels => result.JObj? && forall k | k in result.fields :: CleanPanel(p, k, result.fields[k])
    case GetConfig => result.JObj? && forall k | k in result.fields && RedactedKey(k) :: result.fields[k] == JInt(0)
    case TokenList => result.JList?
    case _ => true
  }

  lemma EntriesAreNamed(entries: Json, key: EntryKey, allowed: set<string>, seen: string -> bool)
    requires forall x :: x in allowed ==> seen(x)
    requires FilterEntries(entries, key, allowed).Done?
    ensures ListOf(JList(FilterEntries(entries, key, allowed).value), key, seen)
  {
    forall e | e in FilterEntries(entries, key, allowed).value
      ensures e.JObj? && Named(EntryId(e, key), seen)
    {
      assert EntryIn(key, allowed)(e);
    }
  }

  lemma DisplayIsNamed(p: UserPolicy, v: View, result: Json)
    requires FilterEntityRegistryDisplay(result, Enumerable(p, v)).Done?
    ensures CleanResult(p, v, EntityDisplay, JObj(FilterEntityRegistryDisplay(result, Enumerable(p, v)).value))
  {
    EnumerationRefinesPredicate(p, v);
    if result.JObj? {
      var entities := if "entities" in result.fields then result.fields["entities"] else JList([]);
      EntriesAreNamed(entities, EntityKey, Enumerable(p, v), ReadOf(p, v));
    } else {
      assert ListOf(JList([]), EntityKey, ReadOf(p, v));
    }
  }

  lemma PanelsAreClean(p: UserPolicy, v: View, panels: Fields)
    requires PanelsFor(panels, p.Dashboards(), p.defaultDashboard).Done?
    ensures CleanResult(p, v, GetPanels, JObj(PanelsFor(panels, p.Dashboards(), p.defaultDashboard).value))
  {
    var kept := KeptPanels(panels, p.Dashboards());
    forall k | k in kept
      ensures CleanPanel(p, k, kept[k])
    {
      assert KeepsPanel(panels[k], p.Dashboards());
    }
  }

  lemma StatesAreClean(p: UserPolicy, v: View, states: seq<Json>)
    ensures CleanResult(p, v, GetStates, JList(Keep(states, ReadableState(ReadOf(p, v)))))
  {
    forall s | s in Keep(states, ReadableState(ReadOf(p, v)))
      ensures StateEntity(s).Some? && AllowedRead(p, v, StateEntity(s).value)
    {
      assert ReadableState(ReadOf(p, v))(s);
    }
  }

  lemma FilteredIsClean(p: UserPolicy, v: View, command: Command, result: Json)
    requires TransformFor(command).Some? && FilteredResult(p, v, TransformFor(command).value, result).Done?
    ensures CleanResult(p, v, command, FilteredResult(p, v, TransformFor(command).value, result).value)
  {
    match command
    case GetStates => StatesAreClean(p, v, if result.JList? then result.items else []);
    case EntityList =>
      EnumerationRefinesPredicate(p, v);
      EntriesAreNamed(result, EntityKey, Enumerable(p, v), ReadOf(p, v));
    case EntityDisplay => DisplayIsNamed(p, v, result);
    case DeviceList => EntriesAreNamed(result, FieldKey("id"), AllowedDeviceIds(p, v), DeviceSeen(p, v));
    case AreaList => EntriesAreNamed(result, FieldKey("area_id"), AllowedAreaIds(p, v), AreaSeen(p, v));
    case LovelaceDashboards => EntriesAreNamed(result, FieldKey("url_path"), p.Dashboards(), DashboardSeen(p));
    case GetPanels => if result.JObj? { PanelsAreClean(p, v, result.fields); }
    case _ =>
  }

  // ---- and nothing else is lost ----

  /** The entity is one the user may be shown in a list: named by a rule, or registered and
      readable while the registry is fresh. */
  predicate Listable(p: UserPolicy, v: View, e: string) {
    e in StaticIds(p) || (v.isFresh && e in v.snap.areaOf && AllowedRead(p, v, e))
  }

  /** An element of a list result that the user is entitled to. */
  ghost predicate Due(p: UserPolicy, v: View, command: Command, e: Json) {
    match command
    case GetStates => StateEntity(e).Some? && AllowedRead(p, v, StateEntity(e).value)
    case EntityList | EntityDisplay =>
      e.JObj? && EntryId(e, EntityKey).JStr? && Listable(p, v, EntryId(e, EntityKey).s)
    case DeviceList => e.JObj? && Get(e.fields, "id").JStr? && OwnsReadableDevice(p, v, Get(e.fields, "id").s)
    case AreaList => e.JObj? && Get(e.fields, "area_id").JStr? && OwnsReadableArea(p, v, Get(e.fields, "area_id").s)
    case LovelaceDashboards => e.JObj? && InSet(Get(e.fields, "url_path"), p.Dashboards())
    case _ => false
  }

  predicate IsListing(command: Command) {
    || command.GetStates? || command.EntityList? || command.EntityDisplay?
    || command.DeviceList? || command.AreaList? || command.LovelaceDashboards?
  }

  function ElementsOf(j: Json): seq<Json> {
    if j.JList? then j.items else []
  }

  /** The elements of a result, none when it has not the expected shape. */
  function Listed(command: Command, result: Json): seq<Json> {
    if !command.EntityDisplay? then ElementsOf(result)
    else if result.JObj? then ElementsOf(Get(result.fields, "entities"))
    else []
  }

  lemma ListableExactly(p: UserPolicy, v: View, e: string)
    ensures e in Enumerable(p, v) <==> Listable(p, v, e)
  {
    EnumerationRefinesPredicate(p, v);
  }

  lemma EntriesAreExact(entries: Json, key: EntryKey, allowed: set<string>, e: Json)
    requires FilterEntries(entries, key, allowed).Done?
    ensures e in FilterEntries(entries, key, allowed).value <==>
      e in ElementsOf(entries) && e.JObj? && InSet(EntryId(e, key), allowed)
  {
    assert EntryIn(key, allowed)(e) <==> e.JObj? && InSet(EntryId(e, key), allowed);
  }

  lemma RegistryListsAreExact(p: UserPolicy, v: View, command: Command, result: Json, e: Json)
    requires v.snap.Aligned() && (command.EntityList? || command.DeviceList? || command.AreaList?)
    requires FilteredResult(p, v, TransformFor(command).value, result).Done?
    ensures var kept := FilteredResult(p, v, TransformFor(command).value, result).value;
      e in Listed(command, kept) <==> e in Listed(command, result) && Due(p, v, command, e)
  {
    match command
    case EntityList =>
      EntriesAreExact(result, EntityKey, Enumerable(p, v), e);
      if e.JObj? && EntryId(e, EntityKey).JStr? { ListableExactly(p, v, EntryId(e, EntityKey).s); }
    case DeviceList =>
      EntriesAreExact(result, FieldKey("id"), AllowedDeviceIds(p, v), e);
      if e.JObj? && Get(e.fields, "id").JStr? { IndexesAreInverse(p, v, "", "", Get(e.fields, "id").s); }
    case AreaList =>
      EntriesAreExact(result, FieldKey("area_id"), AllowedAreaIds(p, v), e);
      if e.JObj? && Get(e.fields, "area_id").JStr? { IndexesAreInverse(p, v, "", Get(e.fields, "area_id").s, ""); }
  }

  lemma DisplayIsExact(p: UserPolicy, v: View, result: Json, e: Json)
    requires FilterEntityRegistryDisplay(result, Enumerable(p, v)).Done?
    ensures var kept := JObj(FilterEntityRegistryDisplay(result, Enumerable(p, v)).value);
      e in Listed(EntityDisplay, kept) <==> e in Listed(EntityDisplay, result) && Due(p, v, EntityDisplay, e)
  {
    if result.JObj? {
      var entities := if "entities" in result.fields then result.fields["entities"] else JList([]);
      EntriesAreExact(entities, EntityKey, Enumerable(p, v), e);
      if e.JObj? && EntryId(e, EntityKey).JStr? { ListableExactly(p, v, EntryId(e, EntityKey).s); }
    }
  }

  /** Each of the six listings is delivered with exactly the elements the user is entitled
      to, and with none when HA answers in an unexpected shape. */
  lemma ListsAreExact(p: UserPolicy, v: View, command: Command, result: Json, e: Json)
    requires v.snap.Aligned() && IsListing(command)
    requires FilteredResult(p, v, TransformFor(command).value, result).Done?
    ensures var kept := FilteredResult(p, v, TransformFor(command).value, result).value;
      e in Listed(command, kept) <==> e in Listed(command, result) && Due(p, v, command, e)
  {
    match command
    case GetStates => assert ReadableState(ReadOf(p, v))(e) <==> Due(p, v, command, e);
    case LovelaceDashboards => EntriesAreExact(result, FieldKey("url_path"), p.Dashboards(), e);
    case EntityDisplay => DisplayIsExact(p, v, result, e);
    case _ => RegistryListsAreExact(p, v, command, result, e);
  }

  /** What a user is due only grows with their grants and only shrinks as the snapshot ages. */
  lemma DueIsMonotone(p: UserPolicy, q: UserPolicy, v1: View, v2: View, command: Command, e: Json)
    requires GrantsAtLeast(q, p) && Later(v1, v2) && p.Dashboards() <= q.Dashboards()
    requires Due(p, v2, command, e)
    ensures Due(q, v1, command, e)
  {
    AccessIsMonotone(p, q, v1, v2);
    match command
    case DeviceList =>
      var x :| x in v2.snap.deviceOf && DeviceOf(v2, x) == Some(Get(e.fields, "id").s) && AllowedRead(p, v2, x);
      assert DeviceOf(v1, x) == DeviceOf(v2, x) && AllowedRead(q, v1, x);
    case AreaList =>
      var x :| x in v2.snap.areaOf && AreaOf(v2, x) == Some(Get(e.fields, "area_id").s) && AllowedRead(p, v2, x);
      assert AreaOf(v1, x) == AreaOf(v2, x) && AllowedRead(q, v1, x);
    case _ =>
  }

  /** On every run with ids used once, the successful result of an outstanding command is
      delivered clean or not at all. */
  lemma ResultsAreClean(p: UserPolicy, es: seq<Event>, v: View, k: Key, m: Json)
    requires IdsOnce(es) && ResultKey(m) == Some(k) && k in LedgerOf(p, es).awaiting
    requires Truthy(Get(m.fields, "success"))
    ensures var s, s' := Run(p, es), HaStep(p, v, Run(p, es), m);
      || s'.down == s.down
      || exists out :: s'.down == s.down + [Relayed(JObj(out))] &&
           CleanResult(p, v, CommandFor(LedgerOf(p, es), k), Get(out, "result"))
  {
    RightFilters(p, es, k);
    if Run(p, es).open {
      DeliveredResult(p, v, Run(p, es), k, CommandFor(LedgerOf(p, es), k), m.fields);
    }
  }

  lemma DeliveredResult(p: UserPolicy, v: View, s: ConnState, k: Key, command: Command, msg: Fields)
    requires Lookup(s.pending, k) == TransformFor(command) && Truthy(Get(msg, "success"))
    ensures var s' := OnResult(p, v, s, k, msg);
      || s'.down == s.down
      || exists out :: s'.down == s.down + [Relayed(JObj(out))] && CleanResult(p, v, command, Get(out, "result"))
  {
    var s' := OnResult(p, v, s, k, msg);
    if k !in s.pending {
      assert CleanResult(p, v, command, Get(msg, "result"));
      assert s'.down == s.down + [Relayed(JObj(msg))];
    } else if s.pending[k] == Passthrough {
      assert CleanResult(p, v, command, Get(msg, "result"));
      assert s'.down == s.down + [Relayed(JObj(msg))];
    } else if FilteredResult(p, v, s.pending[k], Get(msg, "result")).Done? {
      FilteredIsClean(p, v, command, Get(msg, "result"));
      var out := msg["result" := FilteredResult(p, v, s.pending[k], Get(msg, "result")).value];
      assert s'.down == s.down + [Relayed(JObj(out))];
    }
  }

  /** The events that may be delivered on a subscription. */
  predicate CleanEvent(p: UserPolicy, v: View, kind: SubKind, event: Json) {
    event.JObj? &&
    match kind
    case Entities =>
      var parts := PartsOf(event.fields);
      && (forall e | e in parts.added.Keys + parts.changed.Keys :: AllowedRead(p, v, e))
      && (forall x | x in parts.removed :: Named(x, ReadOf(p, v)))
    case StateChanged => ChangedEntity(event.fields).Some? && AllowedRead(p, v, ChangedEntity(event.fields).value)
    case SystemDataCore =>
      Get(event.fields, "value").JObj? ==>
        Get(Get(event.fields, "value").fields, "default_panel") == JStr(LandingPanel(p))
    case PassthroughEvent => true
  }

  lemma RelayedIsClean(p: UserPolicy, v: View, kind: SubKind, msg: Fields)
    requires RelayedEvent(p, v, kind, msg).Done? && RelayedEvent(p, v, kind, msg).value.Some?
    ensures CleanEvent(p, v, kind, Get(RelayedEvent(p, v, kind, msg).value.value, "event"))
  {
    var event := msg["event"].fields;
    match kind
    case Entities =>
      var kept := PartsOf(event).Filtered(ReadOf(p, v));
      PartsOfEvent(kept);
      forall x | x in kept.removed
        ensures Named(x, ReadOf(p, v))
      {
        assert NameIn(ReadOf(p, v))(x);
      }
    case _ =>
  }

  /** On every run with ids used once, an event on a live subscription is delivered clean
      or not at all. */
  lemma EventsAreClean(p: UserPolicy, es: seq<Event>, v: View, k: Key, m: Json)
    requires IdsOnce(es) && EventKey(m) == Some(k) && SubOn(LedgerOf(p, es), k).Some?
    ensures var s, s' := Run(p, es), HaStep(p, v, Run(p, es), m);
      || s'.down == s.down
      || exists out :: s'.down == s.down + [Relayed(JObj(out))] &&
           CleanEvent(p, v, SubOn(LedgerOf(p, es), k).value, Get(out, "event"))
  {
    RightFilters(p, es, k);
    if Run(p, es).open {
      DeliveredEvent(p, v, Run(p, es), k, SubOn(LedgerOf(p, es), k).value, m.fields);
    }
  }

  lemma DeliveredEvent(p: UserPolicy, v: View, s: ConnState, k: Key, kind: SubKind, msg: Fields)
    requires Lookup(s.subs, k) == Some(kind)
    ensures var s' := OnEvent(p, v, s, k, msg);
      || s'.down == s.down
      || exists out :: s'.down == s.down + [Relayed(JObj(out))] && CleanEvent(p, v, kind, Get(out, "event"))
  {
    var relayed := RelayedEvent(p, v, kind, msg);
    if relayed.Done? && relayed.value.Some? {
      RelayedIsClean(p, v, kind, msg);
      assert OnEvent(p, v, s, k, msg).down == s.down + [Relayed(JObj(relayed.value.value))];
    }
  }

  // ---- what reaches the client unexamined ----

  /** The session passes the message on without consulting policy or registry: anything but
      an awaited successful result with a filter, or an event of a subscription with one. */
  predicate Unexamined(s: ConnState, m: Json) {
    s.open &&
    if ResultKey(m).Some? then
      var k := ResultKey(m).value;
      k !in s.pending || s.pending[k] == Passthrough || !Truthy(Get(m.fields, "success"))
    else if EventKey(m).Some? then
      var k := EventKey(m).value;
      k !in s.subs || (s.subs[k] == PassthroughEvent && Get(m.fields, "event").JObj?)
    else !m.JObj? || (Get(m.fields, "type") != JStr("result") && Get(m.fields, "type") != JStr("event"))
  }

  /** The same message but for what it carries; an event stays an event. */
  predicate SameEnvelope(m: Json, m': Json) {
    if !m.JObj? then m' == m
    else
      && m'.JObj? && (Get(m.fields, "event").JObj? <==> Get(m'.fields, "event").JObj?)
      && forall k | k in m.fields.Keys + m'.fields.Keys && k != "result" && k != "event" ::
           Get(m.fields, k) == Get(m'.fields, k)
  }

  /** Whatever it carries, and whoever it is for, it reaches the client as it is. */
  ghost predicate AlwaysRelayed(s: ConnState, m: Json) {
    forall p, v, m' :: SameEnvelope(m, m') ==> HaStep(p, v, s, m').down == s.down + [Relayed(m')]
  }

  lemma EnvelopeFields(m: Json, m': Json)
    requires SameEnvelope(m, m') && m.JObj?
    ensures Get(m'.fields, "type") == Get(m.fields, "type") && Get(m'.fields, "id") == Get(m.fields, "id")
    ensures Get(m'.fields, "success") == Get(m.fields, "success")
  {
    forall k | k == "type" || k == "id" || k == "success"
      ensures Get(m'.fields, k) == Get(m.fields, k)
    {
      assert k != "result" && k != "event" by {
        assert |"type"| == 4 && |"id"| == 2 && |"success"| == 7 && |"result"| == 6 && |"event"| == 5;
      }
      assert k in m.fields.Keys + m'.fields.Keys ==> Get(m.fields, k) == Get(m'.fields, k);
    }
  }

  lemma UnexaminedIsRelayed(p: UserPolicy, v: View, s: ConnState, m: Json, m': Json)
    requires Unexamined(s, m) && SameEnvelope(m, m')
    ensures HaStep(p, v, s, m').down == s.down + [Relayed(m')]
  {
    if m.JObj? {
      EnvelopeFields(m, m');
      assert m' == JObj(m'.fields);
    }
  }

  /** Every filter turns a missing list or object into an empty one. */
  lemma NullIsFiltered(p: UserPolicy, v: View, kind: Transform)
    requires kind != Passthrough
    ensures FilteredResult(p, v, kind, JNull).Done? && FilteredResult(p, v, kind, JNull).value != JNull
  {}

  lemma FilteredIsNotRelayed(p: UserPolicy, v: View, s: ConnState, m: Json)
    requires s.open && ResultKey(m).Some? && !Unexamined(s, m)
    ensures var m' := JObj(m.fields["result" := JNull]);
      Get(m.fields, "event") == Get(m'.fields, "event") && HaStep(p, v, s, m').down != s.down + [Relayed(m')]
  {
    var msg := m.fields["result" := JNull];
    assert |"type"| == 4 && |"id"| == 2 && |"success"| == 7 && |"result"| == 6 && |"event"| == 5;
    assert Get(msg, "type") == Get(m.fields, "type") && Get(msg, "id") == Get(m.fields, "id");
    assert Get(msg, "success") == Get(m.fields, "success");
    var kind := s.pending[ResultKey(m).value];
    NullIsFiltered(p, v, kind);
    var out := msg["result" := FilteredResult(p, v, kind, JNull).value];
    assert out["result"] != msg["result"];
    var s' := HaStep(p, v, s, JObj(msg));
    assert s'.down == s.down + [Relayed(JObj(out))];
    assert s'.down[|s.down|] == Relayed(JObj(out));
  }

  /** An event the filter of its subscription drops or rewrites. */
  function Telling(kind: SubKind): Fields {
    if kind.SystemDataCore? then map["value" := JObj(map[])] else map[]
  }

  lemma TellingIsNotRelayed(p: UserPolicy, v: View, kind: SubKind, msg: Fields)
    requires kind != PassthroughEvent && Get(msg, "event") == JObj(Telling(kind))
    ensures RelayedEvent(p, v, kind, msg) != Done(Some(msg))
  {
    match kind
    case Entities => assert PartsOf(map[]).Filtered(ReadOf(p, v)) == NOTHING;
    case StateChanged =>
    case SystemDataCore =>
      var event := Telling(kind);
      assert "default_panel" in WithLanding(p, event)["value"].fields;
      assert WithLanding(p, event) != event;
      assert msg["event" := JObj(WithLanding(p, event))]["event"] != msg["event"];
  }

  lemma PrunedIsNotRelayed(p: UserPolicy, v: View, s: ConnState, m: Json)
    requires s.open && EventKey(m).Some? && !Unexamined(s, m) && Get(m.fields, "event").JObj?
    ensures var m' := JObj(m.fields["event" := JObj(Telling(s.subs[EventKey(m).value]))]);
      HaStep(p, v, s, m').down != s.down + [Relayed(m')]
  {
    var kind := s.subs[EventKey(m).value];
    var msg := m.fields["event" := JObj(Telling(kind))];
    assert |"type"| == 4 && |"id"| == 2 && |"event"| == 5;
    assert Get(msg, "type") == Get(m.fields, "type") && Get(msg, "id") == Get(m.fields, "id");
    TellingIsNotRelayed(p, v, kind, msg);
    assert HaStep(p, v, s, JObj(msg)) == OnEvent(p, v, s, EventKey(m).value, msg);
    assert (s.down + [Relayed(JObj(msg))])[|s.down|] == Relayed(JObj(msg));
  }

  /** Exactly which of HA's messages reach the client whatever they carry. */
  lemma UnexaminedExactly(s: ConnState, m: Json)
    ensures AlwaysRelayed(s, m) <==> Unexamined(s, m)
  {
    if Unexamined(s, m) {
      forall p, v, m' | SameEnvelope(m, m')
        ensures HaStep(p, v, s, m').down == s.down + [Relayed(m')]
      {
        UnexaminedIsRelayed(p, v, s, m, m');
      }
    } else {
      ExaminedDiffers(s, m);
    }
  }

  lemma ExaminedDiffers(s: ConnState, m: Json)
    requires !Unexamined(s, m)
    ensures !AlwaysRelayed(s, m)
  {
    var none := RuleSet({}, {}, {});
    var p := UserPolicy("", None, None, none, none, None, {}, false);
    var v := View(false, Snapshot(map[], map[]));
    if s.open && ResultKey(m).Some? {
      FilteredIsNotRelayed(p, v, s, m);
      assert SameEnvelope(m, JObj(m.fields["result" := JNull]));
    } else if s.open && EventKey(m).Some? && Get(m.fields, "event").JObj? {
      PrunedIsNotRelayed(p, v, s, m);
      assert SameEnvelope(m, JObj(m.fields["event" := JObj(Telling(s.subs[EventKey(m).value]))]));
    } else {
      assert SameEnvelope(m, m);
      assert HaStep(p, v, s, m).down == s.down;
    }
  }
}
