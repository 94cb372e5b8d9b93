/** The router from message to what is done about it, read off the message, the policy and
    the registry view themselves. */
module Routing {
  import opened Collections
  import opened JsonValues
  import opened Registry
  import opened Policies
  import opened Evaluator
  import opened Grants
  import opened Commands
  import opened CommandTables
  import opened Connections
  import opened Runs
  import opened ServiceCalls

  // ---- what is asked for ----

  predicate WellNumbered(msg: Fields) {
    && "id" in msg && (msg["id"].JInt? || msg["id"].JBool?)
    && "type" in msg && msg["type"].JStr?
  }

  function TypeIn(msg: Fields): string
    requires WellNumbered(msg)
  {
    msg["type"].s
  }

  predicate Asked(msg: Fields, e: string) {
    "entity_ids" in msg && msg["entity_ids"].JList? ==> JStr(e) in msg["entity_ids"].items
  }

  /** Some entity that may be enumerated is asked for. */
  ghost predicate SomethingVisible(p: UserPolicy, v: View, msg: Fields) {
    exists e :: e in Enumerable(p, v) && Asked(msg, e)
  }

  /** A list of ids that holds a list or an object. */
  predicate Unusable(msg: Fields) {
    && "entity_ids" in msg && msg["entity_ids"].JList?
    && exists x | x in msg["entity_ids"].items :: x.JList? || x.JObj?
  }

  predicate SafeTopicName(j: Json) {
    || j == JStr("state_changed")
    || j == JStr("lovelace_updated") || j == JStr("panels_updated")
    || j == JStr("themes_updated") || j == JStr("core_config_updated")
  }

  predicate RegistryTopicName(j: Json) {
    || j == JStr("entity_registry_updated") || j == JStr("device_registry_updated")
    || j == JStr("area_registry_updated") || j == JStr("floor_registry_updated")
    || j == JStr("label_registry_updated") || j == JStr("category_registry_updated")
    || j == JStr("component_loaded") || j == JStr("service_registered")
    || j == JStr("service_removed") || j == JStr("repairs_issue_registry_updated")
  }

  /** A call with a domain and a service and no response wanted. */
  predicate ProperCall(msg: Fields) {
    !Truthy(Get(msg, "return_response")) && Get(msg, "domain").JStr? && Get(msg, "service").JStr?
  }

  predicate LogsClientError(msg: Fields) {
    Get(msg, "domain") == JStr("system_log") && Get(msg, "service") == JStr("write")
  }

  /** No path or the built-in one, for a user who has another default instead. */
  predicate StandsForDefault(p: UserPolicy, path: Json) {
    && (path.JNull? || path == JStr("lovelace")) && !Mine(p, "lovelace")
    && p.defaultDashboard.Some? && p.defaultDashboard.value != ""
  }

  function KindIn(msg: Fields): Kind
    requires WellNumbered(msg)
  {
    KindOf(msg["type"].s)
  }

  /** What the policy lets pass, by the kind of the message. */
  ghost predicate MayPass(kind: Kind, p: UserPolicy, v: View, msg: Fields) {
    match kind
    case PlainKind | FilteredKind => true
    case TokenKind => p.tokenCreation
    case EntitiesKind => !Unusable(msg) && SomethingVisible(p, v, msg)
    case EventsKind => SafeTopicName(Get(msg, "event_type"))
    case CallKind =>
      ProperCall(msg) && !LogsClientError(msg) && MayCall(p, v, Get(msg, "service_data"), Get(msg, "target"))
    case DashboardKind =>
      var path := Get(msg, "url_path");
      StandsForDefault(p, path) || (path.JStr? && Mine(p, path.s))
    case _ => false
  }

  /** What is answered with a success although nothing is forwarded. */
  ghost predicate AnsweredWith(kind: Kind, p: UserPolicy, v: View, msg: Fields, reply: Reply) {
    match kind
    case EmptyListKind => reply == Ack(JList([]))
    case NoIssuesKind => reply == Ack(JObj(map["issues" := JList([])]))
    case AcknowledgedKind => reply == Ack(JNull)
    case EventsKind =>
      !SafeTopicName(Get(msg, "event_type")) && RegistryTopicName(Get(msg, "event_type")) && reply == Ack(JNull)
    case EntitiesKind => !Unusable(msg) && !SomethingVisible(p, v, msg) && reply == NothingVisible
    case CallKind => ProperCall(msg) && LogsClientError(msg) && reply == Ack(JObj(map["context" := JObj(map[])]))
    case _ => false
  }

  /** The decision is the one the tables and the policy call for; a refusal only where nothing
      else is called for. */
  ghost predicate RightDecision(kind: Kind, p: UserPolicy, v: View, msg: Fields, d: Decision) {
    match d
    case Drop => false
    case Crash => kind == EntitiesKind && Unusable(msg)
    case Forward(_, _, _) => MayPass(kind, p, v, msg)
    case Answer(Refusal(_)) =>
      && !MayPass(kind, p, v, msg) && !(kind == EntitiesKind && Unusable(msg))
      && forall reply :: !AnsweredWith(kind, p, v, msg, reply)
    case Answer(reply) => AnsweredWith(kind, p, v, msg, reply)
  }

  lemma NumberedIsWellFormed(msg: Fields)
    ensures WellNumbered(msg) <==> WellFormed(msg)
    ensures WellNumbered(msg) ==> CommandOf(msg) == Classify(TypeIn(msg)) && KindIn(msg) == KindOf(TypeIn(msg))
  {}

  // ---- the handlers ----

  lemma UnusableExactly(p: UserPolicy, v: View, msg: Fields)
    ensures Unusable(msg) <==> RequestedIds(p, v, msg).Raised?
  {}

  lemma VisibleExactly(p: UserPolicy, v: View, msg: Fields)
    requires !Unusable(msg)
    ensures RequestedIds(p, v, msg).Done? && (SomethingVisible(p, v, msg) <==> RequestedIds(p, v, msg).value != {})
  {
    UnusableExactly(p, v, msg);
    var ids := RequestedIds(p, v, msg).value;
    forall e
      ensures e in ids <==> e in Enumerable(p, v) && Asked(msg, e)
    {}
    if ids != {} {
      var e :| e in ids;
      assert Asked(msg, e);
    }
  }

  lemma EntitiesRight(p: UserPolicy, v: View, msg: Fields)
    ensures RightDecision(EntitiesKind, p, v, msg, DecideSubscribeEntities(p, v, msg))
  {
    UnusableExactly(p, v, msg);
    if !Unusable(msg) { VisibleExactly(p, v, msg); }
  }

  lemma TopicsExactly(eventType: Json)
    ensures SafeTopicName(eventType) <==> TopicOf(eventType).StateChangedTopic? || TopicOf(eventType).SafeTopic?
    ensures TopicOf(eventType).SyntheticTopic? ==> RegistryTopicName(eventType)
    ensures TopicOf(eventType).OtherTopic? ==> !RegistryTopicName(eventType)
  {}

  lemma EventsRight(p: UserPolicy, v: View, msg: Fields)
    ensures RightDecision(EventsKind, p, v, msg, DecideSubscribeEvents(msg))
  {
    TopicsExactly(Get(msg, "event_type"));
  }

  lemma SilentExactly(domain: string, service: string)
    ensures SilentService(domain, service) <==> domain == "system_log" && service == "write"
  {
    var whole := domain + "." + service;
    assert "system_log" + "." + "write" == "system_log.write";
    if whole == "system_log.write" {
      assert whole[|domain|] == '.';
      assert |domain| == 10;
      assert domain == whole[..10] && service == whole[11..];
      assert "system_log.write"[..10] == "system_log" && "system_log.write"[11..] == "write";
    }
  }

  lemma CallRight(p: UserPolicy, v: View, msg: Fields)
    ensures RightDecision(CallKind, p, v, msg, DecideCallService(p, v, msg))
  {
    CallExactly(p, v, Get(msg, "service_data"), Get(msg, "target"));
    if ProperCall(msg) { SilentExactly(Get(msg, "domain").s, Get(msg, "service").s); }
  }

  lemma DashboardRight(p: UserPolicy, v: View, msg: Fields)
    ensures RightDecision(DashboardKind, p, v, msg, DecideLovelaceConfig(p, msg))
  {
    assert forall d :: Mine(p, d) <==> d in p.Dashboards();
  }

  lemma CommandRight(p: UserPolicy, v: View, command: Command, msg: Fields)
    ensures RightDecision(KindFor(command), p, v, msg, DecideCommand(p, v, command, msg))
  {
    match command
    case SubscribeEntities => EntitiesRight(p, v, msg);
    case SubscribeEvents => EventsRight(p, v, msg);
    case CallService => CallRight(p, v, msg);
    case LovelaceConfig => DashboardRight(p, v, msg);
    case _ =>
  }

  /** What is done about a well-numbered message while the switch is off: forwarded exactly
      when it may pass, answered with a success exactly where the tables say so, raising on
      exactly one input, and refused in every other case. While it is on, refused always.
      Anything else is noise. */
  lemma RoutedExactly(p: UserPolicy, v: View, tripped: bool, msg: Fields)
    ensures !WellNumbered(msg) ==> Decide(p, v, tripped, msg) == Drop
    ensures WellNumbered(msg) && tripped ==>
      Decide(p, v, tripped, msg).Answer? && Decide(p, v, tripped, msg).reply.Refusal?
    ensures WellNumbered(msg) && !tripped ==> RightDecision(KindIn(msg), p, v, msg, Decide(p, v, tripped, msg))
  {
    NumberedIsWellFormed(msg);
    if WellNumbered(msg) && !tripped {
      KindExactly(TypeIn(msg));
      CommandRight(p, v, CommandOf(msg), msg);
    }
  }

  /** The list, in order and without repetition, of the entities asked for that may be
      enumerated. */
  ghost predicate VisibleIds(p: UserPolicy, v: View, msg: Fields, ids: Json) {
    exists names: seq<string> ::
      && Spells(ids, names) && Increasing(names)
      && forall e :: e in names <==> e in Enumerable(p, v) && Asked(msg, e)
  }

  /** The frame that goes upstream: the message itself, but for the ids of an entity
      subscription and the path of a dashboard that stands for the user's default. */
  ghost predicate RightFrame(kind: Kind, p: UserPolicy, v: View, msg: Fields, frame: Fields) {
    match kind
    case EntitiesKind =>
      && "entity_ids" in frame && VisibleIds(p, v, msg, frame["entity_ids"])
      && frame == msg["entity_ids" := frame["entity_ids"]]
    case DashboardKind =>
      frame == if StandsForDefault(p, Get(msg, "url_path"))
        then msg["url_path" := JStr(p.defaultDashboard.value)] else msg
    case _ => frame == msg
  }

  lemma RequestedAreVisible(p: UserPolicy, v: View, msg: Fields)
    requires RequestedIds(p, v, msg).Done?
    ensures VisibleIds(p, v, msg, StrList(Sorted(RequestedIds(p, v, msg).value)))
  {
    var ids := RequestedIds(p, v, msg).value;
    var names := Sorted(ids);
    SortedIncreasing(ids);
    ListSpells(names);
    forall e
      ensures e in names <==> e in Enumerable(p, v) && Asked(msg, e)
    {
      RequestedExactly(p, v, msg, e);
    }
  }

  lemma EntitiesFrame(p: UserPolicy, v: View, msg: Fields)
    requires DecideSubscribeEntities(p, v, msg).Forward?
    ensures RightFrame(EntitiesKind, p, v, msg, DecideSubscribeEntities(p, v, msg).frame)
  {
    RequestedAreVisible(p, v, msg);
  }

  lemma DashboardFrame(p: UserPolicy, v: View, msg: Fields)
    requires DecideLovelaceConfig(p, msg).Forward?
    ensures RightFrame(DashboardKind, p, v, msg, DecideLovelaceConfig(p, msg).frame)
  {
    assert Mine(p, "lovelace") <==> "lovelace" in p.Dashboards();
  }

  lemma CommandFrame(p: UserPolicy, v: View, command: Command, msg: Fields)
    requires DecideCommand(p, v, command, msg).Forward?
    ensures RightFrame(KindFor(command), p, v, msg, DecideCommand(p, v, command, msg).frame)
  {
    match command
    case SubscribeEntities => EntitiesFrame(p, v, msg);
    case LovelaceConfig => DashboardFrame(p, v, msg);
    case _ =>
  }

  /** What is forwarded is the right frame, and nothing is said to the client. */
  lemma ForwardedExactly(p: UserPolicy, v: View, s: ConnState, msg: Fields)
    requires s.open && WellNumbered(msg) && MayPass(KindIn(msg), p, v, msg)
    ensures var s' := ClientStep(p, v, false, s, JObj(msg));
      s'.open && s'.down == s.down &&
      exists frame: Fields :: s'.up == s.up + [JObj(frame)] && RightFrame(KindIn(msg), p, v, msg, frame)
  {
    NumberedIsWellFormed(msg);
    KindExactly(TypeIn(msg));
    RoutedExactly(p, v, false, msg);
    var d := Decide(p, v, false, msg);
    PassIsForward(KindIn(msg), p, v, msg, d);
    CommandFrame(p, v, CommandOf(msg), msg);
    assert ClientStep(p, v, false, s, JObj(msg)).up == s.up + [JObj(d.frame)];
  }

  lemma PassIsForward(kind: Kind, p: UserPolicy, v: View, msg: Fields, d: Decision)
    requires MayPass(kind, p, v, msg) && RightDecision(kind, p, v, msg, d)
    ensures d.Forward?
  {}

  // ---- what the client is told ----

  predicate IsRefusal(f: Json, id: Json) {
    && f.JObj? && Get(f.fields, "id") == id && Get(f.fields, "type") == JStr("result")
    && Get(f.fields, "success") == JBool(false)
    && Get(f.fields, "error").JObj? && Get(Get(f.fields, "error").fields, "code") == JStr("unauthorized")
  }

  predicate IsSuccess(f: Json, id: Json, result: Json) {
    && f.JObj? && Get(f.fields, "id") == id && Get(f.fields, "type") == JStr("result")
    && Get(f.fields, "success") == JBool(true) && "result" in f.fields && f.fields["result"] == result
  }

  /** An event that adds no entity. */
  predicate AddsNothing(f: Json, id: Json) {
    f == JObj(map["id" := id, "type" := JStr("event"), "event" := JObj(map["a" := JObj(map[])])])
  }

  lemma FramesExactly(id: Json, result: Json, reason: string)
    ensures IsRefusal(ErrorFrame(id, reason), id)
    ensures IsSuccess(SuccessFrame(id, result), id, result)
    ensures AddsNothing(EmptyAddFrame(id), id)
  {}

  lemma Told(s: ConnState, k: Key, id: Json, reply: Reply)
    ensures var s' := Enact(s, k, id, Answer(reply));
      s'.up == s.up && s'.open == s.open && s'.pending == s.pending &&
      s'.subs == (if reply.NothingVisible? then s.subs[k := Entities] else s.subs) &&
      match reply
      case Refusal(_) => exists f :: s'.down == s.down + [Local(f)] && IsRefusal(f, id)
      case Ack(result) => exists f :: s'.down == s.down + [Local(f)] && IsSuccess(f, id, result)
      case NothingVisible =>
        exists f, g :: s'.down == s.down + [Local(f), Local(g)] && IsSuccess(f, id, JNull) && AddsNothing(g, id)
  {
    match reply
    case Refusal(reason) => FramesExactly(id, JNull, reason);
    case Ack(result) => FramesExactly(id, result, "");
    case NothingVisible =>
      FramesExactly(id, JNull, "");
      assert s.down + [Local(SuccessFrame(id, JNull))] + [Local(EmptyAddFrame(id))] ==
        s.down + [Local(SuccessFrame(id, JNull)), Local(EmptyAddFrame(id))];
  }

  lemma OthersAreRefused(p: UserPolicy, v: View, tripped: bool, msg: Fields)
    requires WellNumbered(msg) && !ForwardedType(TypeIn(msg)) && !AnsweredType(TypeIn(msg))
    ensures Decide(p, v, tripped, msg).Answer? && Decide(p, v, tripped, msg).reply.Refusal?
  {
    NumberedIsWellFormed(msg);
    KindExactly(TypeIn(msg));
    KindOfOthers(TypeIn(msg));
  }

  /** A message whose type is in no table is never forwarded, and is told so. */
  lemma DeniedByDefault(p: UserPolicy, v: View, tripped: bool, s: ConnState, msg: Fields)
    requires s.open && WellNumbered(msg) && !ForwardedType(TypeIn(msg)) && !AnsweredType(TypeIn(msg))
    ensures var s' := ClientStep(p, v, tripped, s, JObj(msg));
      s'.up == s.up && exists f :: s'.down == s.down + [Local(f)] && IsRefusal(f, Get(msg, "id"))
  {
    NumberedIsWellFormed(msg);
    OthersAreRefused(p, v, tripped, msg);
    Told(s, IdKey(msg), Get(msg, "id"), Decide(p, v, tripped, msg).reply);
  }

  // ---- over whole runs ----

  predicate HasType(f: Json, t: string) {
    f.JObj? && "type" in f.fields && f.fields["type"] == JStr(t)
  }

  lemma SafeCommand(p: UserPolicy, v: View, command: Command, msg: Fields, frame: Fields)
    requires SafeFor(command, p, v, msg, frame)
    ensures IsForwarded(KindFor(command))
    ensures KindFor(command).CallKind? ==> CallAllowed(p, v, Get(frame, "service_data"), Get(frame, "target"))
  {}

  lemma SafeType(p: UserPolicy, v: View, msg: Fields, frame: Fields)
    requires SafeUpstream(p, v, msg, frame)
    ensures WellNumbered(frame) && IsForwarded(KindIn(frame))
    ensures KindIn(frame).CallKind? ==> CallAllowed(p, v, Get(frame, "service_data"), Get(frame, "target"))
  {
    NumberedIsWellFormed(frame);
    KindExactly(TypeIn(frame));
    SafeCommand(p, v, CommandOf(frame), msg, frame);
  }

  /** On every run, whatever is sent and with any ids: every frame written upstream has a type
      of the tables, and none has a type that is listed as dangerous. */
  lemma UpstreamIsAllowlisted(p: UserPolicy, es: seq<Event>, f: Json)
    requires f in Run(p, es).up
    ensures exists t :: HasType(f, t) && ForwardedType(t) && !ExplicitlyDenied(t)
  {
    UpstreamSafety(p, es);
    var i: nat :| i < |es| && WrittenAt(p, es, i, f);
    SafeType(p, es[i].v, es[i].msg.fields, f.fields);
    AllowlistedType(f);
  }

  lemma AllowlistedType(f: Json)
    requires f.JObj? && WellNumbered(f.fields) && IsForwarded(KindIn(f.fields))
    ensures exists t :: HasType(f, t) && ForwardedType(t) && !ExplicitlyDenied(t)
  {
    var t := TypeIn(f.fields);
    assert HasType(f, t);
    KindOfForwarded(t);
    if ExplicitlyDenied(t) { DeniedIsUnlisted(t); }
  }

  /** A user without control rules never has a service call forwarded. */
  lemma NoControlNoCalls(p: UserPolicy, es: seq<Event>, f: Json)
    requires p.control == RuleSet({}, {}, {}) && f in Run(p, es).up
    ensures !HasType(f, "call_service")
  {
    UpstreamSafety(p, es);
    var i: nat :| i < |es| && WrittenAt(p, es, i, f);
    SafeType(p, es[i].v, es[i].msg.fields, f.fields);
    CallsNeedControl(p, p, es[i].v, Get(f.fields, "service_data"), Get(f.fields, "target"));
    CallTypeIsCall();
  }

  lemma CallTypeIsCall()
    ensures KindOf("call_service").CallKind?
  {
    CallServiceExactly("call_service");
    KindExactly("call_service");
  }
}
