/** One authenticated, restricted WebSocket session: what each client message and each
    HA message makes the gateway do, as functions on the state of the session. The session
    object whose methods carry the decisions out is `Session.Connection`. */
module Connections {
  import opened Collections
  import opened JsonValues
  import opened Registry
  import opened Policies
  import opened Evaluator
  import opened ServiceCalls
  import opened Filters
  import opened Commands

  datatype Transform =
    | Passthrough | FilterStates | RedactConfig | FilterPanels | FilterDashboards
    | FilterEntityReg | FilterEntityDisplay | FilterDeviceReg | FilterAreaReg | TokenListGuard

  datatype SubKind = Entities | StateChanged | SystemDataCore | PassthroughEvent

  /** A frame written to the client, by origin. */
  datatype Sent = Local(frame: Json) | Relayed(frame: Json)

  datatype ConnState = ConnState(
    pending: map<Key, Transform>,
    subs: map<Key, SubKind>,
    up: seq<Json>,
    down: seq<Sent>,
    open: bool)

  const START := ConnState(map[], map[], [], [], true)

  // ---- client -> HA ----

  function SuccessFrame(id: Json, result: Json): Json {
    JObj(map["id" := id, "type" := JStr("result"), "success" := JBool(true), "result" := result])
  }

  function ErrorFrame(id: Json, reason: string): Json {
    JObj(map["id" := id, "type" := JStr("result"), "success" := JBool(false),
             "error" := JObj(map["code" := JStr("unauthorized"), "message" := JStr("denied by gateway: " + reason)])])
  }

  function EmptyAddFrame(id: Json): Json {
    JObj(map["id" := id, "type" := JStr("event"), "event" := JObj(map["a" := JObj(map[])])])
  }

  /** An answer the gateway gives by itself. */
  datatype Reply =
    | Ack(result: Json)
    | Refusal(reason: string)
    | NothingVisible  // an entity subscription with nothing to show: success, then an event adding nothing

  datatype Decision =
    | Drop                                             // protocol noise
    | Crash                                            // the handler raises and the session ends
    | Answer(reply: Reply)
    | Forward(frame: Fields, transform: Option<Transform>, sub: Option<SubKind>)

  function StrList(xs: seq<string>): Json {
    JList(seq(|xs|, i requires 0 <= i < |xs| => JStr(xs[i])))
  }

  /** The ids a `subscribe_entities` is narrowed to; intersecting with a list that holds
      an unhashable element raises. */
  function RequestedIds(p: UserPolicy, v: View, msg: Fields): Outcome<set<string>> {
    var requested := Get(msg, "entity_ids");
    if !requested.JList? then Done(Enumerable(p, v))
    else if exists x | x in requested.items :: Unhashable(x) then Raised
    else Done(Enumerable(p, v) * StringsOf(requested.items))
  }

  function DecideSubscribeEntities(p: UserPolicy, v: View, msg: Fields): Decision {
    match RequestedIds(p, v, msg)
    case Raised => Crash
    case Done(ids) =>
      if ids == {} then Answer(NothingVisible)
      else Forward(msg["entity_ids" := StrList(Sorted(ids))], None, Some(Entities))
  }

  function DecideSubscribeEvents(msg: Fields): Decision {
    match TopicOf(Get(msg, "event_type"))
    case StateChangedTopic => Forward(msg, None, Some(StateChanged))
    case SafeTopic => Forward(msg, None, Some(PassthroughEvent))
    case SyntheticTopic => Answer(Ack(JNull))
    case OtherTopic => Answer(Refusal("event_type not allowed (use state_changed)"))
  }

  function DecideSystemData(msg: Fields): Decision {
    Forward(msg, None, Some(if Get(msg, "key") == JStr("core") then SystemDataCore else PassthroughEvent))
  }

  function DecideCallService(p: UserPolicy, v: View, msg: Fields): Decision {
    var domain, service := Get(msg, "domain"), Get(msg, "service");
    if Truthy(Get(msg, "return_response")) then Answer(Refusal("return_response not filterable (v1)"))
    else if !domain.JStr? || !service.JStr? then Answer(Refusal("malformed call_service"))
    else if SilentService(domain.s, service.s) then Answer(Ack(JObj(map["context" := JObj(map[])])))
    else if CallAllowed(p, v, Get(msg, "service_data"), Get(msg, "target")) then Forward(msg, Some(Passthrough), None)
    else Answer(Refusal("target not permitted"))
  }

  function DecideTokens(p: UserPolicy, msg: Fields, listing: bool): Decision {
    if !p.tokenCreation then Answer(Refusal("token management not enabled for this user"))
    else Forward(msg, Some(if listing then TokenListGuard else Passthrough), None)
  }

  function DecideLovelaceConfig(p: UserPolicy, msg: Fields): Decision {
    var path := Get(msg, "url_path");
    if (path == JNull || path == JStr("lovelace")) && "lovelace" !in p.Dashboards() && p.HasDefault() then
      Forward(msg["url_path" := JStr(p.defaultDashboard.value)], Some(Passthrough), None)
    else if InSet(path, p.Dashboards()) then Forward(msg, Some(Passthrough), None)
    else Answer(Refusal("dashboard not allowed"))
  }

  predicate WellFormed(msg: Fields) {
    IsInt(Get(msg, "id")) && Get(msg, "type").JStr?
  }

  function IdKey(msg: Fields): Key
    requires WellFormed(msg)
  {
    HashKey(Get(msg, "id")).value
  }

  function CommandOf(msg: Fields): Command
    requires WellFormed(msg)
  {
    Classify(Get(msg, "type").s)
  }

  function DecideCommand(p: UserPolicy, v: View, command: Command, msg: Fields): Decision {
    match command
    case Plain | LovelaceResources => Forward(msg, None, None)
    case GetStates => Forward(msg, Some(FilterStates), None)
    case GetConfig => Forward(msg, Some(RedactConfig), None)
    case GetPanels => Forward(msg, Some(FilterPanels), None)
    case LovelaceDashboards => Forward(msg, Some(FilterDashboards), None)
    case EntityList => Forward(msg, Some(FilterEntityReg), None)
    case EntityDisplay => Forward(msg, Some(FilterEntityDisplay), None)
    case DeviceList => Forward(msg, Some(FilterDeviceReg), None)
    case AreaList => Forward(msg, Some(FilterAreaReg), None)
    case SubscribeEntities => DecideSubscribeEntities(p, v, msg)
    case SubscribeEvents => DecideSubscribeEvents(msg)
    case SubscribeSystemData => DecideSystemData(msg)
    case CallService => DecideCallService(p, v, msg)
    case LovelaceConfig => DecideLovelaceConfig(p, msg)
    case TokenMint => DecideTokens(p, msg, false)
    case TokenList => DecideTokens(p, msg, true)
    case EmptyRegistry => Answer(Ack(JList([])))
    case SoftEmpty => Answer(Ack(JObj(map["issues" := JList([])])))
    case SilentAck => Answer(Ack(JNull))
    case Unlisted => Answer(Refusal("command not in gateway allowlist"))
  }

  /** What the gateway does with one client message. */
  function Decide(p: UserPolicy, v: View, tripped: bool, msg: Fields): Decision {
    if !WellFormed(msg) then Drop
    else if tripped then Answer(Refusal("gateway tripped (fail closed)"))
    else DecideCommand(p, v, CommandOf(msg), msg)
  }

  function WithEntry<V>(m: map<Key, V>, k: Key, v: Option<V>): map<Key, V> {
    if v.Some? then m[k := v.value] else m
  }

  function Say(down: seq<Sent>, id: Json, reply: Reply): seq<Sent> {
    match reply
    case Ack(result) => down + [Local(SuccessFrame(id, result))]
    case Refusal(reason) => down + [Local(ErrorFrame(id, reason))]
    case NothingVisible => down + [Local(SuccessFrame(id, JNull))] + [Local(EmptyAddFrame(id))]
  }

  /** The decision carried out for the command with this id. */
  function Enact(s: ConnState, k: Key, id: Json, d: Decision): ConnState {
    match d
    case Drop => s
    case Crash => s.(open := false)
    case Answer(reply) =>
      s.(subs := if reply.NothingVisible? then s.subs[k := Entities] else s.subs, down := Say(s.down, id, reply))
    case Forward(frame, transform, sub) =>
      s.(pending := WithEntry(s.pending, k, transform), subs := WithEntry(s.subs, k, sub), up := s.up + [JObj(frame)])
  }

  /** One message of a client frame; anything but an object is ignored. */
  function ClientStep(p: UserPolicy, v: View, tripped: bool, s: ConnState, m: Json): ConnState {
    if !s.open || !m.JObj? || !WellFormed(m.fields) then s
    else Enact(s, IdKey(m.fields), Get(m.fields, "id"), Decide(p, v, tripped, m.fields))
  }

  // ---- HA -> client ----

  function ListOr(o: Outcome<seq<Json>>): Outcome<Json> {
    match o { case Raised => Raised case Done(xs) => Done(JList(xs)) }
  }

  function ObjOr(o: Outcome<Fields>): Outcome<Json> {
    match o { case Raised => Raised case Done(f) => Done(JObj(f)) }
  }

  /** The filtered result; every branch turns an unexpected shape into something empty. */
  function FilteredResult(p: UserPolicy, v: View, kind: Transform, result: Json): Outcome<Json> {
    match kind
    case Passthrough => Done(result)
    case FilterStates => Done(JList(if result.JList? then Keep(result.items, ReadableState(ReadOf(p, v))) else []))
    case RedactConfig => Done(JObj(if result.JObj? then Redacted(result.fields) else map[]))
    case FilterPanels =>
      if result.JObj? then ObjOr(PanelsFor(result.fields, p.Dashboards(), p.defaultDashboard)) else Done(JObj(map[]))
    case FilterDashboards => ListOr(FilterLovelaceDashboards(result, p.Dashboards()))
    case FilterEntityReg => ListOr(FilterEntityRegistry(result, Enumerable(p, v)))
    case FilterEntityDisplay => ObjOr(FilterEntityRegistryDisplay(result, Enumerable(p, v)))
    case FilterDeviceReg => ListOr(FilterByKey(result, "id", AllowedDeviceIds(p, v)))
    case FilterAreaReg => ListOr(FilterByKey(result, "area_id", AllowedAreaIds(p, v)))
    case TokenListGuard => Done(if result.JList? then result else JList([]))
  }

  function TransformResult(p: UserPolicy, v: View, kind: Transform, msg: Fields): Outcome<Fields> {
    if !Truthy(Get(msg, "success")) || kind == Passthrough then Done(msg)
    else
      match FilteredResult(p, v, kind, Get(msg, "result"))
      case Raised => Raised
      case Done(result) => Done(msg["result" := result])
  }

  function LandingPanel(p: UserPolicy): string {
    if p.HasDefault() then p.defaultDashboard.value else DEFAULT_PANEL_KEY
  }

  function WithLanding(p: UserPolicy, event: Fields): Fields {
    if Get(event, "value").JObj?
    then event["value" := JObj(event["value"].fields["default_panel" := JStr(LandingPanel(p))])]
    else event
  }

  /** The event as relayed on a subscription of the given kind, or `None` when it is not. */
  function RelayedEvent(p: UserPolicy, v: View, kind: SubKind, msg: Fields): Outcome<Option<Fields>> {
    if !Get(msg, "event").JObj? then Done(None)
    else
      var event := msg["event"].fields;
      match kind
      case Entities =>
        (match CompressedEvent(event, ReadOf(p, v))
         case Raised => Raised
         case Done(None) => Done(None)
         case Done(Some(pruned)) => Done(Some(msg["event" := JObj(pruned)])))
      case StateChanged => Done(if StateChangedAllowed(event, ReadOf(p, v)) then Some(msg) else None)
      case SystemDataCore => Done(Some(msg["event" := JObj(WithLanding(p, event))]))
      case PassthroughEvent => Done(Some(msg))
  }

  function Relay(s: ConnState, frame: Json): ConnState {
    s.(down := s.down + [Relayed(frame)])
  }

  function Close(s: ConnState): ConnState {
    s.(open := false)
  }

  function OnResult(p: UserPolicy, v: View, s: ConnState, k: Key, msg: Fields): ConnState {
    if k !in s.pending then Relay(s, JObj(msg))
    else
      var popped := s.(pending := s.pending - {k});
      match TransformResult(p, v, s.pending[k], msg)
      case Raised => Close(popped)
      case Done(out) => Relay(popped, JObj(out))
  }

  function OnEvent(p: UserPolicy, v: View, s: ConnState, k: Key, msg: Fields): ConnState {
    if k !in s.subs then Relay(s, JObj(msg))
    else
      match RelayedEvent(p, v, s.subs[k], msg)
      case Raised => Close(s)
      case Done(None) => s
      case Done(Some(out)) => Relay(s, JObj(out))
  }

  /** One message of an HA frame. */
  function HaStep(p: UserPolicy, v: View, s: ConnState, m: Json): ConnState {
    if !s.open then s
    else if !m.JObj? then Relay(s, m)
    else
      var key := HashKey(Get(m.fields, "id"));
      if Get(m.fields, "type") == JStr("result") then
        if key.None? then Close(s) else OnResult(p, v, s, key.value, m.fields)
      else if Get(m.fields, "type") == JStr("event") then
        if key.None? then Close(s) else OnEvent(p, v, s, key.value, m.fields)
      else Relay(s, m)
  }

  /** A frame is one message or a coalesced array of them. */
  function Messages(frame: Json): seq<Json> {
    if frame.JList? then frame.items else [frame]
  }
}
