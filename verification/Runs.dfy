/** Whole runs of a session: every interleaving of client messages, HA messages, registry
    states and trip answers. */
module Runs {
  import opened Collections
  import opened JsonValues
  import opened Registry
  import opened Policies
  import opened Evaluator
  import opened ServiceCalls
  import opened Commands
  import opened Connections

  /** One message read from either side, with the registry view and the trip answer at that
      instant; or the end of the session, because a socket closed or a change of policy
      cut it. */
  datatype Event =
    | FromClient(v: View, tripped: bool, msg: Json)
    | FromHa(v: View, msg: Json)
    | Disconnected

  function Step(p: UserPolicy, s: ConnState, e: Event): ConnState {
    match e
    case FromClient(v, tripped, m) => ClientStep(p, v, tripped, s, m)
    case FromHa(v, m) => HaStep(p, v, s, m)
    case Disconnected => Close(s)
  }

  function Run(p: UserPolicy, es: seq<Event>): ConnState {
    if es == [] then START else Step(p, Run(p, es[..|es| - 1]), es[|es| - 1])
  }

  predicate IsCommand(e: Event) {
    e.FromClient? && e.msg.JObj? && WellFormed(e.msg.fields)
  }

  function KeyOf(e: Event): Key
    requires IsCommand(e)
  {
    IdKey(e.msg.fields)
  }

  // ---- what may be written upstream ----

  predicate Requested(msg: Fields, e: string) {
    Get(msg, "entity_ids").JList? ==> JStr(e) in Get(msg, "entity_ids").items
  }

  /** The JSON list of these strings. */
  predicate Spells(j: Json, names: seq<string>) {
    j.JList? && |j.items| == |names| && forall i | 0 <= i < |names| :: j.items[i] == JStr(names[i])
  }

  /** `ids` lists, in order and without repetition, exactly the entities that were
      requested and may be enumerated; at least one. */
  ghost predicate NarrowedTo(p: UserPolicy, v: View, msg: Fields, ids: Json) {
    exists names: seq<string> ::
      && Spells(ids, names) && names != [] && Increasing(names)
      && forall e :: e in names <==> e in Enumerable(p, v) && Requested(msg, e)
  }

  /** What must hold of a frame written for the client's message `msg`, by its command. */
  ghost predicate SafeFor(command: Command, p: UserPolicy, v: View, msg: Fields, frame: Fields) {
    match command
    case SubscribeEntities =>
      && NarrowedTo(p, v, msg, Get(frame, "entity_ids"))
      && frame == msg["entity_ids" := Get(frame, "entity_ids")]
    case SubscribeEvents =>
      var topic := TopicOf(Get(frame, "event_type"));
      frame == msg && (topic.StateChangedTopic? || topic.SafeTopic?)
    case CallService =>
      && frame == msg && !Truthy(Get(frame, "return_response"))
      && CallAllowed(p, v, Get(frame, "service_data"), Get(frame, "target"))
    case LovelaceConfig =>
      && InSet(Get(frame, "url_path"), p.Dashboards())
      && (frame == msg || (p.HasDefault() && frame == msg["url_path" := JStr(p.defaultDashboard.value)]))
    case TokenMint | TokenList => frame == msg && p.tokenCreation
    case EmptyRegistry | SoftEmpty | SilentAck | Unlisted => false
    case _ => frame == msg
  }

  predicate SameHeader(msg: Fields, frame: Fields) {
    Get(frame, "id") == Get(msg, "id") && Get(frame, "type") == Get(msg, "type")
  }

  /** A frame the gateway may write for the client's message `msg`. */
  ghost predicate SafeUpstream(p: UserPolicy, v: View, msg: Fields, frame: Fields) {
    WellFormed(msg) && SameHeader(msg, frame) && SafeFor(CommandOf(frame), p, v, msg, frame)
  }

  /** The transform the result of a forwarded command has to go through. */
  function TransformFor(command: Command): Option<Transform> {
    match command
    case GetStates => Some(FilterStates)
    case GetConfig => Some(RedactConfig)
    case GetPanels => Some(FilterPanels)
    case LovelaceDashboards => Some(FilterDashboards)
    case EntityList => Some(FilterEntityReg)
    case EntityDisplay => Some(FilterEntityDisplay)
    case DeviceList => Some(FilterDeviceReg)
    case AreaList => Some(FilterAreaReg)
    case TokenList => Some(TokenListGuard)
    case CallService | LovelaceConfig | TokenMint => Some(Passthrough)
    case _ => None
  }

  /** The filter the events of a forwarded subscription have to go through. */
  function SubFor(command: Command, frame: Fields): Option<SubKind> {
    match command
    case SubscribeEntities => Some(Entities)
    case SubscribeEvents =>
      Some(if Get(frame, "event_type") == JStr("state_changed") then StateChanged else PassthroughEvent)
    case SubscribeSystemData => Some(if Get(frame, "key") == JStr("core") then SystemDataCore else PassthroughEvent)
    case _ => None
  }

  /** The decision forwards a safe frame and registers exactly the filters it needs. */
  ghost predicate ForwardsSafely(command: Command, p: UserPolicy, v: View, msg: Fields, d: Decision)
    requires d.Forward?
  {
    && SameHeader(msg, d.frame)
    && SafeFor(command, p, v, msg, d.frame)
    && d.transform == TransformFor(command)
    && d.sub == SubFor(command, d.frame)
  }

  lemma ListSpells(names: seq<string>)
    ensures Spells(StrList(names), names)
  {}

  lemma RequestedExactly(p: UserPolicy, v: View, msg: Fields, e: string)
    requires RequestedIds(p, v, msg).Done?
    ensures e in RequestedIds(p, v, msg).value <==> e in Enumerable(p, v) && Requested(msg, e)
  {}

  lemma RequestedIsNarrowed(p: UserPolicy, v: View, msg: Fields)
    requires RequestedIds(p, v, msg).Done? && RequestedIds(p, v, msg).value != {}
    ensures NarrowedTo(p, v, msg, StrList(Sorted(RequestedIds(p, v, msg).value)))
  {
    var ids := RequestedIds(p, v, msg).value;
    var names := Sorted(ids);
    SortedIncreasing(ids);
    ListSpells(names);
    forall e
      ensures e in names <==> e in Enumerable(p, v) && Requested(msg, e)
    {
      RequestedExactly(p, v, msg, e);
    }
  }

  lemma SubscribeEntitiesSafely(p: UserPolicy, v: View, msg: Fields)
    requires DecideSubscribeEntities(p, v, msg).Forward?
    ensures ForwardsSafely(SubscribeEntities, p, v, msg, DecideSubscribeEntities(p, v, msg))
  {
    RequestedIsNarrowed(p, v, msg);
  }

  lemma SubscribeEventsSafely(p: UserPolicy, v: View, msg: Fields)
    requires DecideSubscribeEvents(msg).Forward?
    ensures ForwardsSafely(SubscribeEvents, p, v, msg, DecideSubscribeEvents(msg))
  {}

  lemma CallServiceSafely(p: UserPolicy, v: View, msg: Fields)
    requires DecideCallService(p, v, msg).Forward?
    ensures ForwardsSafely(CallService, p, v, msg, DecideCallService(p, v, msg))
  {}

  lemma LovelaceConfigSafely(p: UserPolicy, v: View, msg: Fields)
    requires DecideLovelaceConfig(p, msg).Forward?
    ensures ForwardsSafely(LovelaceConfig, p, v, msg, DecideLovelaceConfig(p, msg))
  {}

  lemma SimpleCommandSafely(p: UserPolicy, v: View, command: Command, msg: Fields)
    requires !command.SubscribeEntities? && !command.SubscribeEvents? && !command.CallService? &&
      !command.LovelaceConfig?
    requires DecideCommand(p, v, command, msg).Forward?
    ensures ForwardsSafely(command, p, v, msg, DecideCommand(p, v, command, msg))
  {}

  lemma CommandForwardsSafely(p: UserPolicy, v: View, command: Command, msg: Fields)
    requires DecideCommand(p, v, command, msg).Forward?
    ensures ForwardsSafely(command, p, v, msg, DecideCommand(p, v, command, msg))
  {
    match command
    case SubscribeEntities => SubscribeEntitiesSafely(p, v, msg);
    case SubscribeEvents => SubscribeEventsSafely(p, v, msg);
    case CallService => CallServiceSafely(p, v, msg);
    case LovelaceConfig => LovelaceConfigSafely(p, v, msg);
    case _ => SimpleCommandSafely(p, v, command, msg);
  }

  lemma ForwardIsSafe(p: UserPolicy, v: View, tripped: bool, msg: Fields)
    requires WellFormed(msg) && Decide(p, v, tripped, msg).Forward?
    ensures !tripped
    ensures var d := Decide(p, v, tripped, msg);
      && SafeUpstream(p, v, msg, d.frame)
      && WellFormed(d.frame) && IdKey(d.frame) == IdKey(msg)
      && d.transform == TransformFor(CommandOf(d.frame))
      && d.sub == SubFor(CommandOf(d.frame), d.frame)
  {
    CommandForwardsSafely(p, v, CommandOf(msg), msg);
  }

  // ---- safety over whole runs ----

  /** The frame answers to a client message read at step `i`, while not tripped, and was
      safe under the registry view of that instant. */
  ghost predicate WrittenAt(p: UserPolicy, es: seq<Event>, i: nat, frame: Json)
    requires i < |es|
  {
    && IsCommand(es[i]) && !es[i].tripped && frame.JObj?
    && SafeUpstream(p, es[i].v, es[i].msg.fields, frame.fields)
  }

  lemma HaWritesNothing(p: UserPolicy, v: View, s: ConnState, m: Json)
    ensures HaStep(p, v, s, m).up == s.up
  {}

  lemma EnactWrites(s: ConnState, k: Key, id: Json, d: Decision)
    ensures Enact(s, k, id, d).up == if d.Forward? then s.up + [JObj(d.frame)] else s.up
  {}

  lemma ClientWritesOne(p: UserPolicy, s: ConnState, e: Event)
    requires e.FromClient?
    ensures Step(p, s, e).up == s.up ||
      (IsCommand(e) && !e.tripped && s.open &&
       exists frame :: Step(p, s, e).up == s.up + [JObj(frame)] && SafeUpstream(p, e.v, e.msg.fields, frame))
  {
    if s.open && IsCommand(e) {
      var d := Decide(p, e.v, e.tripped, e.msg.fields);
      EnactWrites(s, KeyOf(e), Get(e.msg.fields, "id"), d);
      if d.Forward? { ForwardIsSafe(p, e.v, e.tripped, e.msg.fields); }
    }
  }

  /** Whatever the client and HA send, in any order and with any ids, every frame the
      session ever writes upstream was safe when it was written. */
  lemma {:induction false} UpstreamSafety(p: UserPolicy, es: seq<Event>)
    ensures forall f :: f in Run(p, es).up ==> exists i: nat :: i < |es| && WrittenAt(p, es, i, f)
  {
    if es == [] {
    } else {
      var n := |es| - 1;
      UpstreamSafety(p, es[..n]);
      var s := Run(p, es[..n]);
      match es[n] {
        case FromHa(v, m) => HaWritesNothing(p, v, s, m);
        case FromClient(v, tripped, m) => ClientWritesOne(p, s, es[n]);
        case Disconnected =>
      }
      forall f | f in Run(p, es).up
        ensures exists i: nat :: i < |es| && WrittenAt(p, es, i, f)
      {
        if f in s.up {
          var i: nat :| i < n && WrittenAt(p, es[..n], i, f);
          assert WrittenAt(p, es, i, f);
        } else {
          assert WrittenAt(p, es, n, f);
        }
      }
    }
  }

  // ---- conservation of replies ----

  /** The one input on which a handler raises: intersecting the allowed set with a list
      that holds an unhashable element. */
  predicate Crashing(e: Event) {
    && IsCommand(e) && !e.tripped && CommandOf(e.msg.fields).SubscribeEntities?
    && Get(e.msg.fields, "entity_ids").JList?
    && exists x | x in Get(e.msg.fields, "entity_ids").items :: Unhashable(x)
  }

  lemma CrashExactly(p: UserPolicy, e: Event)
    requires IsCommand(e)
    ensures Decide(p, e.v, e.tripped, e.msg.fields).Crash? <==> Crashing(e)
  {
    var msg := e.msg.fields;
    if !e.tripped && !CommandOf(msg).SubscribeEntities? {
      OnlySubscribeCrashes(p, e.v, CommandOf(msg), msg);
    }
  }

  lemma OnlySubscribeCrashes(p: UserPolicy, v: View, command: Command, msg: Fields)
    requires !command.SubscribeEntities?
    ensures !DecideCommand(p, v, command, msg).Crash? && !DecideCommand(p, v, command, msg).Drop?
  {}

  predicate FrameFor(frame: Json, k: Key) {
    frame.JObj? && HashKey(Get(frame.fields, "id")) == Some(k)
  }

  function CountUp(up: seq<Json>, k: Key): nat {
    if up == [] then 0
    else CountUp(up[..|up| - 1], k) + if FrameFor(up[|up| - 1], k) then 1 else 0
  }

  /** Result frames the gateway itself wrote to the client. */
  predicate AnswerFor(sent: Sent, k: Key) {
    sent.Local? && FrameFor(sent.frame, k) && Get(sent.frame.fields, "type") == JStr("result")
  }

  function CountAnswers(down: seq<Sent>, k: Key): nat {
    if down == [] then 0
    else CountAnswers(down[..|down| - 1], k) + if AnswerFor(down[|down| - 1], k) then 1 else 0
  }

  /** The commands with id `k` that reached the router while the session was open. */
  function Handled(p: UserPolicy, es: seq<Event>, k: Key): nat {
    if es == [] then 0
    else
      var n := |es| - 1;
      Handled(p, es[..n], k) +
        if Run(p, es[..n]).open && IsCommand(es[n]) && KeyOf(es[n]) == k && !Crashing(es[n]) then 1 else 0
  }

  lemma CountUpSnoc(up: seq<Json>, f: Json, k: Key)
    ensures CountUp(up + [f], k) == CountUp(up, k) + if FrameFor(f, k) then 1 else 0
  {
    assert (up + [f])[..|up|] == up;
  }

  lemma CountAnswersSnoc(down: seq<Sent>, f: Sent, k: Key)
    ensures CountAnswers(down + [f], k) == CountAnswers(down, k) + if AnswerFor(f, k) then 1 else 0
  {
    assert (down + [f])[..|down|] == down;
  }

  lemma FramesCarryId(id: Json, result: Json, reason: string, k: Key)
    ensures AnswerFor(Local(SuccessFrame(id, result)), k) <==> HashKey(id) == Some(k)
    ensures AnswerFor(Local(ErrorFrame(id, reason)), k) <==> HashKey(id) == Some(k)
    ensures !AnswerFor(Local(EmptyAddFrame(id)), k)
  {}

  /** Every local answer holds exactly one result frame, and it carries the command's id. */
  lemma AnswerCountsOnce(down: seq<Sent>, id: Json, reply: Reply, k: Key)
    requires HashKey(id).Some?
    ensures CountAnswers(Say(down, id, reply), k) == CountAnswers(down, k) + if HashKey(id) == Some(k) then 1 else 0
  {
    match reply
    case Ack(result) =>
      FramesCarryId(id, result, "", k);
      CountAnswersSnoc(down, Local(SuccessFrame(id, result)), k);
    case Refusal(reason) =>
      FramesCarryId(id, JNull, reason, k);
      CountAnswersSnoc(down, Local(ErrorFrame(id, reason)), k);
    case NothingVisible =>
      TwoFrames(down, Local(SuccessFrame(id, JNull)), Local(EmptyAddFrame(id)), k);
      FramesCarryId(id, JNull, "", k);
  }

  lemma TwoFrames(down: seq<Sent>, f: Sent, g: Sent, k: Key)
    ensures CountAnswers(down + [f] + [g], k) ==
      CountAnswers(down, k) + (if AnswerFor(f, k) then 1 else 0) + (if AnswerFor(g, k) then 1 else 0)
  {
    CountAnswersSnoc(down, f, k);
    CountAnswersSnoc(down + [f], g, k);
  }

  lemma RelayCountsNothing(p: UserPolicy, v: View, s: ConnState, m: Json, k: Key)
    ensures CountAnswers(HaStep(p, v, s, m).down, k) == CountAnswers(s.down, k)
  {
    var s' := HaStep(p, v, s, m);
    if s'.down != s.down {
      var f: Json :| s'.down == s.down + [Relayed(f)];
      CountAnswersSnoc(s.down, Relayed(f), k);
    }
  }

  /** A decision that is carried out counts once under its own id, on one side or the other. */
  lemma EnactCountsOnce(s: ConnState, k': Key, id: Json, d: Decision, k: Key)
    requires HashKey(id) == Some(k') && !d.Drop?
    requires d.Forward? ==> FrameFor(JObj(d.frame), k) == (k' == k)
    ensures var s' := Enact(s, k', id, d);
      CountUp(s'.up, k) + CountAnswers(s'.down, k) ==
        CountUp(s.up, k) + CountAnswers(s.down, k) + if k' == k && !d.Crash? then 1 else 0
  {
    match d
    case Answer(reply) => AnswerCountsOnce(s.down, id, reply, k);
    case Forward(frame, _, _) => CountUpSnoc(s.up, JObj(frame), k);
    case _ =>
  }

  lemma CommandCountsOnce(p: UserPolicy, s: ConnState, e: Event, k: Key)
    requires s.open && IsCommand(e)
    ensures var s' := Step(p, s, e);
      CountUp(s'.up, k) + CountAnswers(s'.down, k) ==
        CountUp(s.up, k) + CountAnswers(s.down, k) + if KeyOf(e) == k && !Crashing(e) then 1 else 0
  {
    CrashExactly(p, e);
    var msg := e.msg.fields;
    var d := Decide(p, e.v, e.tripped, msg);
    NeverDropped(p, e.v, e.tripped, msg);
    if d.Forward? { ForwardIsSafe(p, e.v, e.tripped, msg); }
    EnactCountsOnce(s, KeyOf(e), Get(msg, "id"), d, k);
  }

  lemma NeverDropped(p: UserPolicy, v: View, tripped: bool, msg: Fields)
    requires WellFormed(msg)
    ensures !Decide(p, v, tripped, msg).Drop?
  {
    if CommandOf(msg).SubscribeEntities? {
    } else if !tripped {
      OnlySubscribeCrashes(p, v, CommandOf(msg), msg);
    }
  }

  /** On every run, whatever ids are used: the frames written upstream with an id, plus the
      result frames the gateway answered with that id by itself, are exactly as many as the
      commands with that id that were handled. Nothing is answered twice, nothing is both
      forwarded and answered, nothing is lost. */
  lemma {:induction false} RepliesAreConserved(p: UserPolicy, es: seq<Event>, k: Key)
    ensures CountUp(Run(p, es).up, k) + CountAnswers(Run(p, es).down, k) == Handled(p, es, k)
  {
    if es == [] {
    } else {
      var n := |es| - 1;
      RepliesAreConserved(p, es[..n], k);
      var s := Run(p, es[..n]);
      match es[n] {
        case FromHa(v, m) =>
          HaWritesNothing(p, v, s, m);
          RelayCountsNothing(p, v, s, m, k);
        case FromClient(v, tripped, m) =>
          if s.open && IsCommand(es[n]) { CommandCountsOnce(p, s, es[n], k); }
        case Disconnected =>
      }
    }
  }

  /** A client reuses no message id on one connection. */
  ghost predicate IdsOnce(es: seq<Event>) {
    forall i, j :: 0 <= i < j < |es| && IsCommand(es[i]) && IsCommand(es[j]) ==> KeyOf(es[i]) != KeyOf(es[j])
  }

  lemma {:induction false} HandledAtMostOnce(p: UserPolicy, es: seq<Event>, i: nat)
    requires IdsOnce(es) && i < |es| && IsCommand(es[i])
    ensures Handled(p, es, KeyOf(es[i])) == if Run(p, es[..i]).open && !Crashing(es[i]) then 1 else 0
  {
    var n := |es| - 1;
    var k := KeyOf(es[i]);
    if i == n {
      NotHandled(p, es[..n], k);
    } else {
      assert es[..n][..i] == es[..i];
      HandledAtMostOnce(p, es[..n], i);
    }
  }

  lemma {:induction false} NotHandled(p: UserPolicy, es: seq<Event>, k: Key)
    requires forall i :: 0 <= i < |es| && IsCommand(es[i]) ==> KeyOf(es[i]) != k
    ensures Handled(p, es, k) == 0
  {
    if es == [] {
    } else {
      NotHandled(p, es[..|es| - 1], k);
    }
  }

  /** With every id used once, a command read while the session is open is written
      upstream exactly once or answered by the gateway with exactly one result of its id,
      never both and never neither -- unless it is the command that crashes the handler,
      which gets neither. */
  lemma RepliedExactlyOnce(p: UserPolicy, es: seq<Event>, i: nat)
    requires IdsOnce(es) && i < |es| && IsCommand(es[i]) && Run(p, es[..i]).open
    ensures var k := KeyOf(es[i]);
      CountUp(Run(p, es).up, k) + CountAnswers(Run(p, es).down, k) == 1 <==> !Crashing(es[i])
    ensures var k := KeyOf(es[i]);
      Crashing(es[i]) ==> CountUp(Run(p, es).up, k) + CountAnswers(Run(p, es).down, k) == 0
  {
    RepliesAreConserved(p, es, KeyOf(es[i]));
    HandledAtMostOnce(p, es, i);
  }
}
