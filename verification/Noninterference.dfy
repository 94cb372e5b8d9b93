/** What the user may not see has no influence on the session: erase it from everything HA
    says, and the whole session is the same, frame for frame. */
module Noninterference {
  import opened Collections
  import opened JsonValues
  import opened Registry
  import opened Policies
  import opened Evaluator
  import opened Filters
  import opened Commands
  import opened Connections
  import opened Runs
  import opened Correlation
  import opened Confidentiality

  // ---- what there is to hide in a payload ----

  function StateShown(read: string -> bool): Json -> bool {
    (s: Json) => StateEntity(s).Some? ==> read(StateEntity(s).value)
  }

  /** An entry is hidden when it names something the user may not see; an entry that names
      nothing is no secret. */
  function EntryShown(key: EntryKey, seen: string -> bool): Json -> bool {
    (e: Json) => e.JObj? && EntryId(e, key).JStr? ==> seen(EntryId(e, key).s)
  }

  function EraseList(result: Json, shown: Json -> bool): Json {
    if result.JList? then JList(Keep(result.items, shown)) else result
  }

  predicate PanelShown(p: UserPolicy, key: string, panel: Json) {
    || p.defaultDashboard == Some(key)
    || (panel.JObj? && Get(panel.fields, "url_path").JStr? ==>
          Get(panel.fields, "url_path").s in p.Dashboards() || Essential(panel.fields))
  }

  function ErasePanels(p: UserPolicy, panels: Fields): Fields {
    map k | k in panels && PanelShown(p, k, panels[k]) :: panels[k]
  }

  /** The home's coordinates, whatever they are. */
  function EraseLocation(config: Fields): Fields {
    map k | k in config :: if RedactedKey(k) then JNull else config[k]
  }

  function EraseDisplay(result: Fields, read: string -> bool): Fields {
    if "entities" in result
    then result["entities" := EraseList(result["entities"], EntryShown(EntityKey, read))]
    else result
  }

  /** The result of a command without what it says about things the user may not see. */
  function EraseResult(p: UserPolicy, v: View, command: Command, result: Json): Json {
    match command
    case GetStates => EraseList(result, StateShown(ReadOf(p, v)))
    case EntityList => EraseList(result, EntryShown(EntityKey, ReadOf(p, v)))
    case EntityDisplay => if result.JObj? then JObj(EraseDisplay(result.fields, ReadOf(p, v))) else result
    case DeviceList => EraseList(result, EntryShown(FieldKey("id"), DeviceSeen(p, v)))
    case AreaList => EraseList(result, EntryShown(FieldKey("area_id"), AreaSeen(p, v)))
    case LovelaceDashboards => EraseList(result, EntryShown(FieldKey("url_path"), DashboardSeen(p)))
    case GetPanels => if result.JObj? then JObj(ErasePanels(p, result.fields)) else result
    case GetConfig => if result.JObj? then JObj(EraseLocation(result.fields)) else result
    case _ => result
  }

  lemma EraseEntries(entries: Json, key: EntryKey, allowed: set<string>, seen: string -> bool)
    requires forall x :: x in allowed ==> seen(x)
    ensures FilterEntries(EraseList(entries, EntryShown(key, seen)), key, allowed) ==
      FilterEntries(entries, key, allowed)
  {
    if entries.JList? {
      var shown, kept := EntryShown(key, seen), EntryIn(key, allowed);
      forall e | e in entries.items
        ensures kept(e) ==> shown(e)
        ensures Poisons(key, e) ==> shown(e)
      {}
      KeepKeep(entries.items, kept, shown);
      var erased := Keep(entries.items, shown);
      if e :| e in entries.items && Poisons(key, e) {
        assert e in erased;
      }
    }
  }

  lemma EraseStates(states: Json, read: string -> bool)
    requires states.JList?
    ensures Keep(EraseList(states, StateShown(read)).items, ReadableState(read)) ==
      Keep(states.items, ReadableState(read))
  {
    KeepKeep(states.items, ReadableState(read), StateShown(read));
  }

  lemma EraseDisplayEntries(p: UserPolicy, v: View, result: Fields)
    ensures FilterEntityRegistryDisplay(JObj(EraseDisplay(result, ReadOf(p, v))), Enumerable(p, v)) ==
            FilterEntityRegistryDisplay(JObj(result), Enumerable(p, v))
  {
    EnumerationRefinesPredicate(p, v);
    var read := ReadOf(p, v);
    var erased := EraseDisplay(result, read);
    if "entities" in result {
      EraseEntries(result["entities"], EntityKey, Enumerable(p, v), read);
      var x := EraseList(result["entities"], EntryShown(EntityKey, read));
      assert erased == result["entities" := x];
      match FilterEntityRegistry(x, Enumerable(p, v)) {
        case Raised =>
        case Done(kept) => assert erased["entities" := JList(kept)] == result["entities" := JList(kept)];
      }
    }
  }

  lemma ErasePanelEntries(p: UserPolicy, panels: Fields)
    ensures PanelsFor(ErasePanels(p, panels), p.Dashboards(), p.defaultDashboard) ==
            PanelsFor(panels, p.Dashboards(), p.defaultDashboard)
  {
    var erased, dashboards := ErasePanels(p, panels), p.Dashboards();
    assert KeptPanels(erased, dashboards) == KeptPanels(panels, dashboards);
    if k :| k in panels && PoisonedPanel(panels[k]) {
      assert k in erased;
    }
  }

  lemma EraseCoordinates(config: Fields)
    ensures Redacted(EraseLocation(config)) == Redacted(config)
  {}

  predicate SameFiltered(p: UserPolicy, v: View, command: Command, kind: Transform, result: Json) {
    FilteredResult(p, v, kind, EraseResult(p, v, command, result)) == FilteredResult(p, v, kind, result)
  }

  lemma EntityListIgnoresErased(p: UserPolicy, v: View, result: Json)
    ensures SameFiltered(p, v, EntityList, FilterEntityReg, result)
  {
    EnumerationRefinesPredicate(p, v);
    EraseEntries(result, EntityKey, Enumerable(p, v), ReadOf(p, v));
  }

  lemma DeviceListIgnoresErased(p: UserPolicy, v: View, result: Json)
    ensures SameFiltered(p, v, DeviceList, FilterDeviceReg, result)
  {
    EraseEntries(result, FieldKey("id"), AllowedDeviceIds(p, v), DeviceSeen(p, v));
  }

  lemma AreaListIgnoresErased(p: UserPolicy, v: View, result: Json)
    ensures SameFiltered(p, v, AreaList, FilterAreaReg, result)
  {
    EraseEntries(result, FieldKey("area_id"), AllowedAreaIds(p, v), AreaSeen(p, v));
  }

  lemma DashboardListIgnoresErased(p: UserPolicy, v: View, result: Json)
    ensures SameFiltered(p, v, LovelaceDashboards, FilterDashboards, result)
  {
    EraseEntries(result, FieldKey("url_path"), p.Dashboards(), DashboardSeen(p));
  }

  lemma StatesIgnoreErased(p: UserPolicy, v: View, result: Json)
    ensures SameFiltered(p, v, GetStates, FilterStates, result)
  {
    if result.JList? { EraseStates(result, ReadOf(p, v)); }
  }

  lemma DisplayFiltered(p: UserPolicy, v: View, result: Json)
    ensures FilteredResult(p, v, FilterEntityDisplay, result) ==
      ObjOr(FilterEntityRegistryDisplay(result, Enumerable(p, v)))
  {}

  lemma ErasedDisplay(p: UserPolicy, v: View, result: Json)
    ensures EraseResult(p, v, EntityDisplay, result) ==
      if result.JObj? then JObj(EraseDisplay(result.fields, ReadOf(p, v))) else result
  {}

  lemma DisplayIgnoresErased(p: UserPolicy, v: View, result: Json)
    ensures SameFiltered(p, v, EntityDisplay, FilterEntityDisplay, result)
  {
    var erased := EraseResult(p, v, EntityDisplay, result);
    ErasedDisplay(p, v, result);
    if result.JObj? { EraseDisplayEntries(p, v, result.fields); }
    assert FilterEntityRegistryDisplay(erased, Enumerable(p, v)) ==
      FilterEntityRegistryDisplay(result, Enumerable(p, v));
    DisplayFiltered(p, v, result);
    DisplayFiltered(p, v, erased);
  }

  lemma PanelsIgnoreErased(p: UserPolicy, v: View, result: Json)
    ensures SameFiltered(p, v, GetPanels, Transform.FilterPanels, result)
  {
    if result.JObj? { ErasePanelEntries(p, result.fields); }
  }

  lemma ConfigIgnoresErased(p: UserPolicy, v: View, result: Json)
    ensures SameFiltered(p, v, GetConfig, RedactConfig, result)
  {
    if result.JObj? { EraseCoordinates(result.fields); }
  }

  /** The filter a command needs does not look at what is erased. */
  lemma FilterIgnoresErased(p: UserPolicy, v: View, command: Command, result: Json)
    requires TransformFor(command).Some?
    ensures SameFiltered(p, v, command, TransformFor(command).value, result)
  {
    match command
    case EntityList => EntityListIgnoresErased(p, v, result);
    case DeviceList => DeviceListIgnoresErased(p, v, result);
    case AreaList => AreaListIgnoresErased(p, v, result);
    case LovelaceDashboards => DashboardListIgnoresErased(p, v, result);
    case GetStates => StatesIgnoreErased(p, v, result);
    case EntityDisplay => DisplayIgnoresErased(p, v, result);
    case GetPanels => PanelsIgnoreErased(p, v, result);
    case GetConfig => ConfigIgnoresErased(p, v, result);
    case TokenList =>
    case CallService =>
    case LovelaceConfig =>
    case TokenMint =>
    case _ =>
  }

  predicate IsSection(k: string) {
    k == "a" || k == "c" || k == "r"
  }

  /** The event with its sections reduced to readable entities, a section with nothing left
      or of another shape than documented counting as absent; its other keys stay. */
  function EraseSections(event: Fields, read: string -> bool): Fields {
    (map k | k in event && !IsSection(k) :: event[k]) + EventOf(PartsOf(event).Filtered(read))
  }

  /** What is left of an event that makes the filter raise. */
  const POISON: Fields := map["r" := JList([JNull])]

  lemma PoisonRaises(read: string -> bool)
    ensures CompressedEvent(POISON, read) == Raised
  {
    assert PartsOf(POISON).removed == [JNull] && !JNull.JStr?;
    assert JNull in PartsOf(POISON).removed;
  }

  /** A subscription event without what it says about things the user may not see, or
      `None` when it is about nothing else. */
  function EraseEvent(p: UserPolicy, v: View, kind: SubKind, event: Fields): Option<Fields> {
    match kind
    case Entities =>
      var parts := PartsOf(event);
      if parts.Poisoned() then Some(POISON)
      else if parts.Filtered(ReadOf(p, v)) == NOTHING then None
      else Some(EraseSections(event, ReadOf(p, v)))
    case StateChanged =>
      if ChangedEntity(event).Some? && !AllowedRead(p, v, ChangedEntity(event).value) then None else Some(event)
    case SystemDataCore =>
      Some(if Get(event, "value").JObj?
           then event["value" := JObj(event["value"].fields["default_panel" := JNull])] else event)
    case PassthroughEvent => Some(event)
  }

  lemma ErasedParts(event: Fields, read: string -> bool)
    ensures PartsOf(EraseSections(event, read)) == PartsOf(event).Filtered(read)
  {
    var kept := PartsOf(event).Filtered(read);
    var erased := EraseSections(event, read);
    PartsOfEvent(kept);
    forall k | k == "a" || k == "c" || k == "r"
      ensures Get(erased, k) == Get(EventOf(kept), k)
    {
      assert IsSection(k);
    }
    assert Section(erased, "a") == Section(EventOf(kept), "a");
    assert Section(erased, "c") == Section(EventOf(kept), "c");
  }

  lemma EraseEntityEvent(event: Fields, read: string -> bool)
    requires !PartsOf(event).Poisoned()
    ensures CompressedEvent(EraseSections(event, read), read) == CompressedEvent(event, read)
  {
    ErasedParts(event, read);
    var kept := PartsOf(event).Filtered(read);
    assert Restrict(kept.added, read) == kept.added;
    assert Restrict(kept.changed, read) == kept.changed;
    assert forall x :: x in kept.removed ==> x.JStr?;
    KeepAll(kept.removed, NameIn(read));
  }

  lemma RelayIgnoresErased(p: UserPolicy, v: View, kind: SubKind, msg: Fields)
    requires Get(msg, "event").JObj?
    ensures match EraseEvent(p, v, kind, msg["event"].fields)
      case None => RelayedEvent(p, v, kind, msg) == Done(None)
      case Some(event) => RelayedEvent(p, v, kind, msg["event" := JObj(event)]) == RelayedEvent(p, v, kind, msg)
  {
    var event := msg["event"].fields;
    match kind
    case Entities =>
      if PartsOf(event).Poisoned() {
        PoisonRaises(ReadOf(p, v));
      } else {
        EraseEntityEvent(event, ReadOf(p, v));
        var blank := msg["event" := JObj(EraseSections(event, ReadOf(p, v)))];
        match CompressedEvent(event, ReadOf(p, v)).value {
          case None =>
          case Some(pruned) => assert blank["event" := JObj(pruned)] == msg["event" := JObj(pruned)];
        }
      }
    case SystemDataCore => EraseLanding(p, msg, event);
    case _ =>
      assert msg["event" := JObj(event)] == msg;
  }

  lemma EraseLanding(p: UserPolicy, msg: Fields, event: Fields)
    requires Get(msg, "event") == JObj(event)
    ensures var erased := if Get(event, "value").JObj?
                then event["value" := JObj(event["value"].fields["default_panel" := JNull])] else event;
      WithLanding(p, erased) == WithLanding(p, event) &&
      msg["event" := JObj(erased)]["event" := JObj(WithLanding(p, erased))] ==
        msg["event" := JObj(WithLanding(p, event))]
  {
    if Get(event, "value").JObj? {
      var value := event["value"].fields;
      var blank, landing := value["default_panel" := JNull], JStr(LandingPanel(p));
      assert blank["default_panel" := landing] == value["default_panel" := landing];
      assert event["value" := JObj(blank)]["value" := JObj(value["default_panel" := landing])] ==
             event["value" := JObj(value["default_panel" := landing])];
    }
  }

  // ---- erasing from a whole run ----

  function EraseResultMessage(p: UserPolicy, v: View, command: Command, msg: Fields): Fields {
    if Truthy(Get(msg, "success")) && TransformFor(command).Some? && TransformFor(command) != Some(Passthrough)
    then msg["result" := EraseResult(p, v, command, Get(msg, "result"))]
    else msg
  }

  function EraseEventMessage(p: UserPolicy, v: View, kind: SubKind, msg: Fields): Option<Fields> {
    if !Get(msg, "event").JObj? then Some(msg)
    else
      match EraseEvent(p, v, kind, msg["event"].fields)
      case None => None
      case Some(event) => Some(msg["event" := JObj(event)])
  }

  /** A message of HA, erased by what HA was asked under its id. */
  function EraseMessage(p: UserPolicy, v: View, g: Ledger, m: Json): Option<Json> {
    if ResultKey(m).Some? && ResultKey(m).value in g.awaiting then
      Some(JObj(EraseResultMessage(p, v, CommandFor(g, ResultKey(m).value), m.fields)))
    else if EventKey(m).Some? && SubOn(g, EventKey(m).value).Some? then
      match EraseEventMessage(p, v, SubOn(g, EventKey(m).value).value, m.fields)
      case None => None
      case Some(msg) => Some(JObj(msg))
    else Some(m)
  }

  /** The run without what the user may not see. Client messages stay as they are; HA
      frames that only concern unreadable entities disappear. */
  function EraseRun(p: UserPolicy, es: seq<Event>): seq<Event> {
    if es == [] then []
    else
      var n := |es| - 1;
      EraseRun(p, es[..n]) +
        match es[n]
        case FromClient(_, _, _) => [es[n]]
        case Disconnected => [es[n]]
        case FromHa(v, m) =>
          match EraseMessage(p, v, LedgerOf(p, es[..n]), m)
          case None => []
          case Some(erased) => [FromHa(v, erased)]
  }

  lemma EraseResultStep(p: UserPolicy, v: View, s: ConnState, k: Key, command: Command, msg: Fields)
    requires Lookup(s.pending, k) == TransformFor(command)
    ensures OnResult(p, v, s, k, EraseResultMessage(p, v, command, msg)) == OnResult(p, v, s, k, msg)
  {
    var erased := EraseResultMessage(p, v, command, msg);
    if erased != msg {
      FilterIgnoresErased(p, v, command, Get(msg, "result"));
      match FilteredResult(p, v, TransformFor(command).value, Get(msg, "result")) {
        case Raised =>
        case Done(result) => assert erased["result" := result] == msg["result" := result];
      }
      assert Get(erased, "success") == Get(msg, "success");
    }
  }

  lemma EraseEventStep(p: UserPolicy, v: View, s: ConnState, k: Key, kind: SubKind, msg: Fields)
    requires Lookup(s.subs, k) == Some(kind)
    ensures match EraseEventMessage(p, v, kind, msg)
      case None => OnEvent(p, v, s, k, msg) == s
      case Some(erased) => OnEvent(p, v, s, k, erased) == OnEvent(p, v, s, k, msg)
  {
    if Get(msg, "event").JObj? {
      RelayIgnoresErased(p, v, kind, msg);
    }
  }

  lemma EraseStep(p: UserPolicy, v: View, s: ConnState, g: Ledger, m: Json)
    requires forall k :: k in g.awaiting ==> Lookup(s.pending, k) == TransformFor(CommandFor(g, k))
    requires forall k :: k in g.commands ==> Lookup(s.subs, k) == SubOn(g, k)
    ensures match EraseMessage(p, v, g, m)
      case None => HaStep(p, v, s, m) == s
      case Some(erased) => HaStep(p, v, s, erased) == HaStep(p, v, s, m)
  {
    if s.open {
      if ResultKey(m).Some? && ResultKey(m).value in g.awaiting {
        var k := ResultKey(m).value;
        var erased := EraseResultMessage(p, v, CommandFor(g, k), m.fields);
        EraseResultStep(p, v, s, k, CommandFor(g, k), m.fields);
        assert Get(erased, "type") == Get(m.fields, "type") && Get(erased, "id") == Get(m.fields, "id");
      } else if EventKey(m).Some? && SubOn(g, EventKey(m).value).Some? {
        var k := EventKey(m).value;
        EraseEventStep(p, v, s, k, SubOn(g, k).value, m.fields);
        match EraseEventMessage(p, v, SubOn(g, k).value, m.fields) {
          case None =>
          case Some(erased) =>
            assert Get(erased, "type") == Get(m.fields, "type") && Get(erased, "id") == Get(m.fields, "id");
        }
      }
    }
  }

  /** Erasing changes nothing: tables, both logs and the state of the session are the same. */
  lemma {:induction false} ErasedRunIsSame(p: UserPolicy, es: seq<Event>)
    requires IdsOnce(es)
    ensures Run(p, EraseRun(p, es)) == Run(p, es)
  {
    if es == [] {
    } else {
      var n := |es| - 1;
      ErasedRunIsSame(p, es[..n]);
      var front, s := EraseRun(p, es[..n]), Run(p, es[..n]);
      match es[n] {
        case FromClient(_, _, _) =>
          assert (front + [es[n]])[..|front|] == front;
        case Disconnected =>
          assert (front + [es[n]])[..|front|] == front;
        case FromHa(v, m) =>
          forall k
            ensures k in LedgerOf(p, es[..n]).awaiting ==>
              Lookup(s.pending, k) == TransformFor(CommandFor(LedgerOf(p, es[..n]), k))
            ensures k in LedgerOf(p, es[..n]).commands ==> Lookup(s.subs, k) == SubOn(LedgerOf(p, es[..n]), k)
          {
            RightFilters(p, es[..n], k);
          }
          EraseStep(p, v, s, LedgerOf(p, es[..n]), m);
          match EraseMessage(p, v, LedgerOf(p, es[..n]), m) {
            case None => assert EraseRun(p, es) == front;
            case Some(erased) =>
              assert (front + [FromHa(v, erased)])[..|front|] == front;
          }
      }
    }
  }

  /** Noninterference. Two runs, with the same client messages, that differ only in what HA
      says about things the user may not see leave the client and HA with the same frames. */
  lemma SecretsDoNotInterfere(p: UserPolicy, es1: seq<Event>, es2: seq<Event>)
    requires IdsOnce(es1) && IdsOnce(es2)
    requires EraseRun(p, es1) == EraseRun(p, es2)
    ensures Run(p, es1).down == Run(p, es2).down
    ensures Run(p, es1).up == Run(p, es2).up
    ensures Run(p, es1).open == Run(p, es2).open
  {
    ErasedRunIsSame(p, es1);
    ErasedRunIsSame(p, es2);
  }

  // ---- what erasure hides ----

  predicate Shown(p: UserPolicy, v: View, command: Command, e: Json) {
    match command
    case GetStates => StateShown(ReadOf(p, v))(e)
    case EntityList | EntityDisplay => EntryShown(EntityKey, ReadOf(p, v))(e)
    case DeviceList => EntryShown(FieldKey("id"), DeviceSeen(p, v))(e)
    case AreaList => EntryShown(FieldKey("area_id"), AreaSeen(p, v))(e)
    case LovelaceDashboards => EntryShown(FieldKey("url_path"), DashboardSeen(p))(e)
    case _ => true
  }

  /** A listing with these elements; the display list sits inside an object. */
  function Listing(command: Command, shell: Fields, items: seq<Json>): Json {
    if command.EntityDisplay? then JObj(shell["entities" := JList(items)]) else JList(items)
  }

  lemma ErasedListing(p: UserPolicy, v: View, shell: Fields, items: seq<Json>)
    ensures EraseResult(p, v, EntityDisplay, Listing(EntityDisplay, shell, items)) ==
      JObj(shell["entities" := JList(Keep(items, EntryShown(EntityKey, ReadOf(p, v))))])
  {
    var erased := EraseDisplay(shell["entities" := JList(items)], ReadOf(p, v));
    assert erased == shell["entities" := JList(Keep(items, EntryShown(EntityKey, ReadOf(p, v))))];
    ErasedDisplay(p, v, Listing(EntityDisplay, shell, items));
  }

  /** Whether a listing mentions a hidden thing, and what it says about it, cannot be told
      from the erased listing. */
  lemma ErasureHidesEntries(p: UserPolicy, v: View, command: Command, shell: Fields,
                            before: seq<Json>, hidden: Json, after: seq<Json>)
    requires !Shown(p, v, command, hidden)
    ensures EraseResult(p, v, command, Listing(command, shell, before + [hidden] + after)) ==
            EraseResult(p, v, command, Listing(command, shell, before + after))
  {
    match command
    case GetStates => KeepSkips(before, hidden, after, StateShown(ReadOf(p, v)));
    case EntityList => KeepSkips(before, hidden, after, EntryShown(EntityKey, ReadOf(p, v)));
    case EntityDisplay =>
      KeepSkips(before, hidden, after, EntryShown(EntityKey, ReadOf(p, v)));
      ErasedListing(p, v, shell, before + [hidden] + after);
      ErasedListing(p, v, shell, before + after);
    case DeviceList => KeepSkips(before, hidden, after, EntryShown(FieldKey("id"), DeviceSeen(p, v)));
    case AreaList => KeepSkips(before, hidden, after, EntryShown(FieldKey("area_id"), AreaSeen(p, v)));
    case LovelaceDashboards => KeepSkips(before, hidden, after, EntryShown(FieldKey("url_path"), DashboardSeen(p)));
  }

  /** The same key, or none, in both. */
  predicate AgreeAt(e1: Fields, e2: Fields, k: string) {
    (k in e1 <==> k in e2) && (k in e1 ==> e1[k] == e2[k])
  }

  /** Two events that say the same about readable entities. */
  ghost predicate AgreeOnReadable(e1: Fields, e2: Fields, read: string -> bool) {
    && PartsOf(e1).Filtered(read) == PartsOf(e2).Filtered(read)
    && forall k :: !IsSection(k) ==> AgreeAt(e1, e2, k)
  }

  lemma SectionsErasedAlike(e1: Fields, e2: Fields, read: string -> bool)
    requires AgreeOnReadable(e1, e2, read)
    ensures EraseSections(e1, read) == EraseSections(e2, read)
  {
    var r1, r2 := map k | k in e1 && !IsSection(k) :: e1[k], map k | k in e2 && !IsSection(k) :: e2[k];
    forall k
      ensures k in r1 <==> k in r2
      ensures k in r1 && k in r2 ==> r1[k] == r2[k]
    {
      if !IsSection(k) { assert AgreeAt(e1, e2, k); }
    }
    assert r1.Keys == r2.Keys;
    assert r1 == r2;
  }

  /** On the live stream: which unreadable entities an event adds, changes or removes, what it
      says of them, and what stands in a section of another shape, cannot be told from the
      erased event; nor can anything of an event that makes the filter raise. */
  lemma ErasureHidesEntities(p: UserPolicy, v: View, e1: Fields, e2: Fields)
    requires PartsOf(e1).Poisoned() <==> PartsOf(e2).Poisoned()
    requires !PartsOf(e1).Poisoned() ==> AgreeOnReadable(e1, e2, ReadOf(p, v))
    ensures EraseEvent(p, v, Entities, e1) == EraseEvent(p, v, Entities, e2)
  {
    if !PartsOf(e1).Poisoned() { SectionsErasedAlike(e1, e2, ReadOf(p, v)); }
  }

  /** The two payloads have the panel, or neither; or it is hidden in each that has it. */
  predicate SamePanelOrHidden(p: UserPolicy, a: Fields, b: Fields, k: string) {
    || AgreeAt(a, b, k)
    || ((k in a ==> !PanelShown(p, k, a[k])) && (k in b ==> !PanelShown(p, k, b[k])))
  }

  /** Which hidden panels there are, and what they show, cannot be told from the erased ones. */
  lemma ErasureHidesPanels(p: UserPolicy, v: View, a: Fields, b: Fields)
    requires forall k :: SamePanelOrHidden(p, a, b, k)
    ensures EraseResult(p, v, GetPanels, JObj(a)) == EraseResult(p, v, GetPanels, JObj(b))
  {
    var r1, r2 := ErasePanels(p, a), ErasePanels(p, b);
    forall k
      ensures k in r1 <==> k in r2
      ensures k in r1 && k in r2 ==> r1[k] == r2[k]
    {
      assert SamePanelOrHidden(p, a, b, k);
    }
    assert r1.Keys == r2.Keys;
    assert r1 == r2;
  }

  /** Where the home is cannot be told from the erased configuration. */
  lemma ErasureHidesLocation(p: UserPolicy, v: View, a: Fields, b: Fields)
    requires a.Keys == b.Keys && forall k :: k in a && !RedactedKey(k) ==> a[k] == b[k]
    ensures EraseResult(p, v, GetConfig, JObj(a)) == EraseResult(p, v, GetConfig, JObj(b))
  {
    assert EraseLocation(a) == EraseLocation(b);
  }

  lemma KeepSkips(before: seq<Json>, hidden: Json, after: seq<Json>, shown: Json -> bool)
    requires !shown(hidden)
    ensures Keep(before + [hidden] + after, shown) == Keep(before + after, shown)
  {
    KeepConcat(before + [hidden], after, shown);
    KeepConcat(before, [hidden], shown);
    KeepConcat(before, after, shown);
    assert [hidden][..0] == [];
    assert Keep([hidden], shown) == [];
  }

  /** A run continued from a state. */
  function RunFrom(p: UserPolicy, s: ConnState, rest: seq<Event>): ConnState {
    if rest == [] then s else Step(p, RunFrom(p, s, rest[..|rest| - 1]), rest[|rest| - 1])
  }

  lemma {:induction false} RunContinues(p: UserPolicy, es: seq<Event>, rest: seq<Event>)
    ensures Run(p, es + rest) == RunFrom(p, Run(p, es), rest)
  {
    var all := es + rest;
    if rest == [] {
      assert all == es;
    } else {
      RunContinues(p, es, rest[..|rest| - 1]);
      assert all[..|all| - 1] == es + rest[..|rest| - 1] && all[|all| - 1] == rest[|rest| - 1];
    }
  }

  lemma SameStateSameFuture(p: UserPolicy, es: seq<Event>, es': seq<Event>, rest: seq<Event>)
    requires Run(p, es) == Run(p, es')
    ensures Run(p, es + rest) == Run(p, es' + rest)
  {
    RunContinues(p, es, rest);
    RunContinues(p, es', rest);
  }

  /** A `state_changed` frame about an unreadable entity leaves no trace: the session with
      it is, to the end of the run, the session without it. */
  lemma HiddenChangeLeavesNoTrace(p: UserPolicy, es: seq<Event>, v: View, m: Json, rest: seq<Event>)
    requires IdsOnce(es) && EventKey(m).Some? && SubOn(LedgerOf(p, es), EventKey(m).value) == Some(StateChanged)
    requires Get(m.fields, "event").JObj? && ChangedEntity(m.fields["event"].fields).Some?
    requires !AllowedRead(p, v, ChangedEntity(m.fields["event"].fields).value)
    ensures Run(p, es + [FromHa(v, m)] + rest) == Run(p, es + rest)
  {
    var k := EventKey(m).value;
    RightFilters(p, es, k);
    assert OnEvent(p, v, Run(p, es), k, m.fields) == Run(p, es);
    assert (es + [FromHa(v, m)])[..|es|] == es;
    assert Run(p, es + [FromHa(v, m)]) == Run(p, es);
    SameStateSameFuture(p, es + [FromHa(v, m)], es, rest);
  }
}
