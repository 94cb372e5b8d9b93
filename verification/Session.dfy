/** The session object: the routers and their handlers, updating the session's fields in
    place, each proved to carry out the corresponding decision. */
module Session {
  import opened Collections
  import opened JsonValues
  import opened Registry
  import opened Policies
  import opened Evaluator
  import opened ServiceCalls
  import opened Filters
  import opened Commands
  import opened Connections
  import Trip

  class Connection {
    const identity: Identity
    const policy: UserPolicy
    const registry: RegistryCache
    const trip: Trip.TripSwitch
    var pending: map<Key, Transform>
    var subs: map<Key, SubKind>
    var toUpstream: seq<Json>
    var toClient: seq<Sent>
    var open: bool

    constructor (identity: Identity, policy: UserPolicy, registry: RegistryCache, trip: Trip.TripSwitch)
      ensures this.identity == identity && this.policy == policy && this.registry == registry && this.trip == trip
      ensures State() == START
    {
      this.identity, this.policy, this.registry, this.trip := identity, policy, registry, trip;
      pending, subs, toUpstream, toClient, open := map[], map[], [], [], true;
    }

    function State(): ConnState
      reads this
    {
      ConnState(pending, subs, toUpstream, toClient, open)
    }

    method CloseNow()
      modifies this`open
      ensures State() == Close(old(State()))
    {
      open := false;
    }

    method SendUpstream(frame: Fields)
      modifies this`toUpstream
      ensures toUpstream == old(toUpstream) + [JObj(frame)]
    {
      toUpstream := toUpstream + [JObj(frame)];
    }

    method SendLocal(frame: Json)
      modifies this`toClient
      ensures toClient == old(toClient) + [Local(frame)]
    {
      toClient := toClient + [Local(frame)];
    }

    method SendRelayed(frame: Json)
      modifies this`toClient
      ensures toClient == old(toClient) + [Relayed(frame)]
    {
      toClient := toClient + [Relayed(frame)];
    }

    /** `_deny` */
    method Refuse(k: Key, id: Json, reason: string)
      modifies this
      ensures State() == Enact(old(State()), k, id, Answer(Refusal(reason)))
    {
      SendLocal(ErrorFrame(id, reason));
    }

    method Succeed(k: Key, id: Json, result: Json)
      modifies this
      ensures State() == Enact(old(State()), k, id, Answer(Ack(result)))
    {
      SendLocal(SuccessFrame(id, result));
    }

    /** `_forward` */
    method ForwardPlainly(k: Key, ghost id: Json, msg: Fields)
      modifies this
      ensures State() == Enact(old(State()), k, id, Forward(msg, None, None))
    {
      SendUpstream(msg);
    }

    /** Commands whose result is filtered when it comes back. */
    method ForwardPending(k: Key, ghost id: Json, msg: Fields, transform: Transform)
      modifies this
      ensures State() == Enact(old(State()), k, id, Forward(msg, Some(transform), None))
    {
      pending := pending[k := transform];
      SendUpstream(msg);
    }

    /** Subscriptions whose events are filtered as they arrive. */
    method ForwardSubscribed(k: Key, ghost id: Json, msg: Fields, kind: SubKind)
      modifies this
      ensures State() == Enact(old(State()), k, id, Forward(msg, None, Some(kind)))
    {
      subs := subs[k := kind];
      SendUpstream(msg);
    }

    /** Nothing visible: success, then an initial event that adds nothing. */
    method AnswerEmptySubscription(k: Key, id: Json)
      modifies this
      ensures State() == Enact(old(State()), k, id, Answer(NothingVisible))
    {
      subs := subs[k := Entities];
      SendLocal(SuccessFrame(id, JNull));
      SendLocal(EmptyAddFrame(id));
    }

    method RequestedNow(msg: Fields, now: real) returns (ids: Outcome<set<string>>)
      ensures ids == RequestedIds(policy, registry.ViewAt(now), msg)
    {
      var enumerated := EnumerableReadEntities(policy, registry, now);
      var allowed := set e | e in enumerated;
      assert allowed == Enumerable(policy, registry.ViewAt(now));
      var requested := Get(msg, "entity_ids");
      if !requested.JList? {
        return Done(allowed);
      }
      if exists x | x in requested.items :: Unhashable(x) {
        return Raised;
      }
      return Done(allowed * StringsOf(requested.items));
    }

    method HandleSubscribeEntities(k: Key, id: Json, msg: Fields, now: real)
      modifies this
      ensures State() == Enact(old(State()), k, id, DecideSubscribeEntities(policy, registry.ViewAt(now), msg))
    {
      var ids := RequestedNow(msg, now);
      if ids.Raised? {
        open := false;
      } else if ids.value == {} {
        AnswerEmptySubscription(k, id);
      } else {
        ForwardSubscribed(k, id, msg["entity_ids" := StrList(Sorted(ids.value))], Entities);
      }
    }

    method HandleSubscribeEvents(k: Key, id: Json, msg: Fields)
      modifies this
      ensures State() == Enact(old(State()), k, id, DecideSubscribeEvents(msg))
    {
      match TopicOf(Get(msg, "event_type"))
      case StateChangedTopic => ForwardSubscribed(k, id, msg, StateChanged);
      case SafeTopic => ForwardSubscribed(k, id, msg, PassthroughEvent);
      case SyntheticTopic => Succeed(k, id, JNull);
      case OtherTopic => Refuse(k, id, "event_type not allowed (use state_changed)");
    }

    method HandleSubscribeSystemData(k: Key, ghost id: Json, msg: Fields)
      modifies this
      ensures State() == Enact(old(State()), k, id, DecideSystemData(msg))
    {
      ForwardSubscribed(k, id, msg, if Get(msg, "key") == JStr("core") then SystemDataCore else PassthroughEvent);
    }

    method HandleCallService(k: Key, id: Json, msg: Fields, now: real)
      modifies this
      ensures State() == Enact(old(State()), k, id, DecideCallService(policy, registry.ViewAt(now), msg))
    {
      var domain, service := Get(msg, "domain"), Get(msg, "service");
      if Truthy(Get(msg, "return_response")) {
        Refuse(k, id, "return_response not filterable (v1)");
      } else if !domain.JStr? || !service.JStr? {
        Refuse(k, id, "malformed call_service");
      } else if SilentService(domain.s, service.s) {
        Succeed(k, id, JObj(map["context" := JObj(map[])]));
      } else {
        var v := registry.ViewAt(now);
        var ok := ServiceCallAllowed(ControlOf(policy, v), ResolverOf(v), Get(msg, "service_data"), Get(msg, "target"));
        if ok {
          ForwardPending(k, id, msg, Passthrough);
        } else {
          Refuse(k, id, "target not permitted");
        }
      }
    }

    method HandleTokenManagement(k: Key, id: Json, msg: Fields, listing: bool)
      modifies this
      ensures State() == Enact(old(State()), k, id, DecideTokens(policy, msg, listing))
    {
      if policy.tokenCreation {
        ForwardPending(k, id, msg, if listing then TokenListGuard else Passthrough);
      } else {
        Refuse(k, id, "token management not enabled for this user");
      }
    }

    method HandleLovelaceConfig(k: Key, id: Json, msg: Fields)
      modifies this
      ensures State() == Enact(old(State()), k, id, DecideLovelaceConfig(policy, msg))
    {
      var path, dashboards := Get(msg, "url_path"), policy.Dashboards();
      if (path == JNull || path == JStr("lovelace")) && "lovelace" !in dashboards && policy.HasDefault() {
        ForwardPending(k, id, msg["url_path" := JStr(policy.defaultDashboard.value)], Passthrough);
      } else if InSet(path, dashboards) {
        ForwardPending(k, id, msg, Passthrough);
      } else {
        Refuse(k, id, "dashboard not allowed");
      }
    }

    method RouteCommand(k: Key, id: Json, command: Command, msg: Fields, now: real)
      modifies this
      ensures State() == Enact(old(State()), k, id, DecideCommand(policy, registry.ViewAt(now), command, msg))
    {
      match command
      case Plain => ForwardPlainly(k, id, msg);
      case LovelaceResources => ForwardPlainly(k, id, msg);
      case GetStates => ForwardPending(k, id, msg, FilterStates);
      case GetConfig => ForwardPending(k, id, msg, RedactConfig);
      case GetPanels => ForwardPending(k, id, msg, Transform.FilterPanels);
      case LovelaceDashboards => ForwardPending(k, id, msg, FilterDashboards);
      case EntityList => ForwardPending(k, id, msg, FilterEntityReg);
      case EntityDisplay => ForwardPending(k, id, msg, FilterEntityDisplay);
      case DeviceList => ForwardPending(k, id, msg, FilterDeviceReg);
      case AreaList => ForwardPending(k, id, msg, FilterAreaReg);
      case SubscribeEntities => HandleSubscribeEntities(k, id, msg, now);
      case SubscribeEvents => HandleSubscribeEvents(k, id, msg);
      case SubscribeSystemData => HandleSubscribeSystemData(k, id, msg);
      case CallService => HandleCallService(k, id, msg, now);
      case LovelaceConfig => HandleLovelaceConfig(k, id, msg);
      case TokenMint => HandleTokenManagement(k, id, msg, false);
      case TokenList => HandleTokenManagement(k, id, msg, true);
      case EmptyRegistry => Succeed(k, id, JList([]));
      case SoftEmpty => Succeed(k, id, JObj(map["issues" := JList([])]));
      case SilentAck => Succeed(k, id, JNull);
      case Unlisted => Refuse(k, id, "command not in gateway allowlist");
    }

    /** `_route_client_msg`: asks the trip switch first, then routes by type. */
    method RouteClientMsg(msg: Fields, now: real, fileExists: bool)
      requires open
      modifies this, trip
      ensures trip.State() == (if WellFormed(msg) then Trip.Checked(old(trip.State()), trip.interval, now, fileExists)
                               else old(trip.State()))
      ensures State() == ClientStep(policy, registry.ViewAt(now), trip.cached, old(State()), JObj(msg))
    {
      var id, mtype := Get(msg, "id"), Get(msg, "type");
      if !IsInt(id) || !mtype.JStr? {
        return;
      }
      var tripped := trip.IsTripped(now, fileExists);
      if tripped {
        Refuse(HashKey(id).value, id, "gateway tripped (fail closed)");
        return;
      }
      RouteCommand(HashKey(id).value, id, Classify(mtype.s), msg, now);
    }

    method ComputeResult(kind: Transform, result: Json, now: real) returns (r: Outcome<Json>)
      ensures r == FilteredResult(policy, registry.ViewAt(now), kind, result)
    {
      var v := registry.ViewAt(now);
      match kind
      case Passthrough => r := Done(result);
      case FilterStates =>
        var kept := [];
        if result.JList? { kept := Filters.FilterStates(ReadOf(policy, v), result.items); }
        r := Done(JList(kept));
      case RedactConfig =>
        var config: Fields := map[];
        if result.JObj? { config := RedactHomeLocation(result.fields); }
        r := Done(JObj(config));
      case FilterPanels =>
        if result.JObj? {
          var panels := Filters.FilterPanels(result.fields, policy.Dashboards(), policy.defaultDashboard);
          r := ObjOr(panels);
        } else {
          r := Done(JObj(map[]));
        }
      case FilterDashboards => r := ListOr(FilterLovelaceDashboards(result, policy.Dashboards()));
      case FilterEntityReg => r := ListOr(FilterEntityRegistry(result, Enumerable(policy, v)));
      case FilterEntityDisplay => r := ObjOr(FilterEntityRegistryDisplay(result, Enumerable(policy, v)));
      case FilterDeviceReg => r := ListOr(FilterByKey(result, "id", AllowedDeviceIds(policy, v)));
      case FilterAreaReg => r := ListOr(FilterByKey(result, "area_id", AllowedAreaIds(policy, v)));
      case TokenListGuard => r := Done(if result.JList? then result else JList([]));
    }

    method RelayEvent(kind: SubKind, msg: Fields, now: real)
      modifies this
      ensures State() ==
        match RelayedEvent(policy, registry.ViewAt(now), kind, msg)
        case Raised => Close(old(State()))
        case Done(None) => old(State())
        case Done(Some(out)) => Relay(old(State()), JObj(out))
    {
      if !Get(msg, "event").JObj? { return; }
      var event := msg["event"].fields;
      var read := ReadOf(policy, registry.ViewAt(now));
      match kind
      case Entities =>
        var pruned := FilterCompressedEntitiesEvent(event, read);
        if pruned.Raised? {
          open := false;
        } else if pruned.value.Some? {
          SendRelayed(JObj(msg["event" := JObj(pruned.value.value)]));
        }
      case StateChanged =>
        if StateChangedAllowed(event, read) { SendRelayed(JObj(msg)); }
      case SystemDataCore =>
        SendRelayed(JObj(msg["event" := JObj(WithLanding(policy, event))]));
      case PassthroughEvent =>
        SendRelayed(JObj(msg));
    }

    /** `_route_ha_msg`: consumes the pending entry of a result, looks up the kind of an
        event's subscription, and passes anything else on. */
    method RouteHaMsg(msg: Fields, now: real)
      requires open
      modifies this
      ensures State() == HaStep(policy, registry.ViewAt(now), old(State()), JObj(msg))
    {
      var mtype, id := Get(msg, "type"), Get(msg, "id");
      if mtype == JStr("result") || mtype == JStr("event") {
        if Unhashable(id) {
          open := false;
          return;
        }
        var k := HashKey(id).value;
        if mtype == JStr("result") && k in pending {
          var kind := pending[k];
          pending := pending - {k};
          if !Truthy(Get(msg, "success")) || kind == Passthrough {
            SendRelayed(JObj(msg));
            return;
          }
          var result := ComputeResult(kind, Get(msg, "result"), now);
          if result.Raised? {
            open := false;
            return;
          }
          SendRelayed(JObj(msg["result" := result.value]));
          return;
        }
        if mtype == JStr("event") && k in subs {
          RelayEvent(subs[k], msg, now);
          return;
        }
      }
      SendRelayed(JObj(msg));
    }

    /** The HA pump over one frame, coalesced or not. */
    method PumpHaFrame(frame: Json, now: real)
      modifies this
      ensures State() ==
        HaFold(policy, registry.ViewAt(now), old(State()), if frame.JList? then frame.items else [frame])
    {
      var ms := Messages(frame);
      for i := 0 to |ms|
        invariant State() == HaFold(policy, registry.ViewAt(now), old(State()), ms[..i])
      {
        assert ms[..i + 1][..i] == ms[..i];
        if open {
          if ms[i].JObj? {
            RouteHaMsg(ms[i].fields, now);
          } else {
            SendRelayed(ms[i]);
          }
        }
      }
      assert ms[..|ms|] == ms;
    }

    /** The client pump over one frame. Each message asks the trip switch for itself. */
    method PumpClientFrame(frame: Json, now: real, fileExists: bool)
      modifies this, trip
      ensures (State(), trip.State()) ==
        ClientFold(policy, registry.ViewAt(now), (old(State()), old(trip.State())),
                   if frame.JList? then frame.items else [frame], trip.interval, now, fileExists)
    {
      var ms := Messages(frame);
      for i := 0 to |ms|
        invariant (State(), trip.State()) ==
          ClientFold(policy, registry.ViewAt(now), (old(State()), old(trip.State())), ms[..i],
                     trip.interval, now, fileExists)
      {
        assert ms[..i + 1][..i] == ms[..i];
        if open && ms[i].JObj? {
          RouteClientMsg(ms[i].fields, now, fileExists);
        }
      }
      assert ms[..|ms|] == ms;
    }
  }

  function HaFold(p: UserPolicy, v: View, s: ConnState, ms: seq<Json>): ConnState {
    if ms == [] then s
    else HaStep(p, v, HaFold(p, v, s, ms[..|ms| - 1]), ms[|ms| - 1])
  }

  /** One client message together with the trip-switch check it triggers. */
  function CheckedStep(p: UserPolicy, v: View, st: (ConnState, Trip.TripState), m: Json,
                       interval: real, now: real, fileExists: bool): (ConnState, Trip.TripState)
  {
    if !st.0.open || !m.JObj? || !WellFormed(m.fields) then st
    else
      var trip := Trip.Checked(st.1, interval, now, fileExists);
      (ClientStep(p, v, trip.cached, st.0, m), trip)
  }

  function ClientFold(p: UserPolicy, v: View, st: (ConnState, Trip.TripState), ms: seq<Json>,
                      interval: real, now: real, fileExists: bool): (ConnState, Trip.TripState)
  {
    if ms == [] then st
    else
      var before := ClientFold(p, v, st, ms[..|ms| - 1], interval, now, fileExists);
      CheckedStep(p, v, before, ms[|ms| - 1], interval, now, fileExists)
  }
}
