/** The REST side: what happens to one request, and that it decides as the WebSocket side
    does. Paths, methods and identities are taken as given. */
module RestProxy {
  import opened Collections
  import opened JsonValues
  import opened Registry
  import opened Policies
  import opened Evaluator
  import opened ServiceCalls
  import opened Filters
  import Commands
  import Connections

  /** `body` is the parsed JSON body, null when there is none. */
  datatype Request = Request(verb: string, path: string, returnResponse: bool, body: Json)

  datatype Verdict =
    | Denied(status: int)
    | Pass                                                   // forwarded and relayed as it is
    | ConfigRedacted
    | StatesFiltered
    | Call(domain: string, service: string, body: Fields)    // forwarded with the checked body, the result filtered
  {
    predicate Forwards() {
      !Denied?
    }
  }

  predicate StartsWith(s: string, prefix: string) {
    |s| >= |prefix| && s[..|prefix|] == prefix
  }

  // ---- the path tables ----

  const STATES := "/api/states/"
  const SERVICES := "/api/services/"

  predicate IsAuth(path: string) {
    StartsWith(path, "/auth/")
  }

  predicate IsApi(path: string) {
    StartsWith(path, "/api/")
  }

  predicate IsPublic(path: string) {
    || StartsWith(path, "/api/assist_satellite/connection_test/")
    || StartsWith(path, "/api/tts_proxy/")
    || StartsWith(path, "/api/esphome/ffmpeg_proxy/")
  }

  predicate IsListedDenied(path: string) {
    || StartsWith(path, "/api/template") || StartsWith(path, "/api/error_log")
    || StartsWith(path, "/api/history/") || StartsWith(path, "/api/logbook/")
    || StartsWith(path, "/api/camera_proxy/") || StartsWith(path, "/api/calendars")
    || StartsWith(path, "/api/events/") || StartsWith(path, "/api/config/")
  }

  predicate IsPlain(path: string) {
    path == "/api/" || path == "/api/services"
  }

  // ---- the decision ----

  /** `s.split("/")` */
  function Split(s: string): (r: seq<string>)
    ensures |r| > 0
  {
    if s == "" then [""]
    else
      var rest := Split(s[1..]);
      if s[0] == '/' then [""] + rest else [[s[0]] + rest[0]] + rest[1..]
  }

  function Joined(parts: seq<string>): string
    requires |parts| > 0
  {
    if |parts| == 1 then parts[0] else parts[0] + "/" + Joined(parts[1..])
  }

  /** The parts hold no slash, and joined by slashes they are the string. */
  lemma {:induction false} SplitJoins(s: string)
    ensures Joined(Split(s)) == s && forall part :: part in Split(s) ==> '/' !in part
  {
    if s == "" {
    } else {
      SplitJoins(s[1..]);
      var rest := Split(s[1..]);
      if s[0] == '/' { JoinsSlash(rest); } else { JoinsChar(s[0], rest); }
      assert rest[0] in rest;
      assert s == [s[0]] + s[1..];
    }
  }

  lemma JoinsSlash(rest: seq<string>)
    requires |rest| > 0
    ensures Joined([""] + rest) == "/" + Joined(rest)
  {
    assert ([""] + rest)[1..] == rest;
  }

  lemma JoinsChar(c: char, rest: seq<string>)
    requires |rest| > 0
    ensures Joined([[c] + rest[0]] + rest[1..]) == [c] + Joined(rest)
  {
    var tail := rest[1..];
    var parts := [[c] + rest[0]] + tail;
    assert parts[0] == [c] + rest[0] && parts[1..] == tail;
    if |rest| > 1 { Regrouped([c], rest[0], "/", Joined(tail)); }
  }

  lemma Regrouped(a: string, b: string, c: string, d: string)
    ensures a + b + c + d == a + (b + c + d)
  {}

  function BodyOf(r: Request): Fields {
    if r.body.JObj? then r.body.fields else map[]
  }

  function CallService(r: Request, p: UserPolicy, v: View): Verdict
    requires StartsWith(r.path, SERVICES)
  {
    var parts := Split(r.path[|SERVICES|..]);
    if r.returnResponse || |parts| != 2 || parts[0] == "" || parts[1] == "" then Denied(403)
    else if CallAllowed(p, v, JObj(BodyOf(r)), Get(BodyOf(r), "target")) then Call(parts[0], parts[1], BodyOf(r))
    else Denied(403)
  }

  function StateSingle(r: Request, p: UserPolicy, v: View): Verdict
    requires StartsWith(r.path, STATES)
  {
    if AllowedRead(p, v, r.path[|STATES|..]) then Pass else Denied(403)
  }

  function Allowlist(r: Request, p: UserPolicy, v: View): Verdict {
    if r.verb == "GET" && IsPlain(r.path) then Pass
    else if r.verb == "GET" && r.path == "/api/config" then ConfigRedacted
    else if r.verb == "GET" && r.path == "/api/states" then StatesFiltered
    else if r.verb == "GET" && StartsWith(r.path, STATES) then StateSingle(r, p, v)
    else if r.verb == "POST" && StartsWith(r.path, SERVICES) then CallService(r, p, v)
    else Denied(403)
  }

  function Restricted(r: Request, p: UserPolicy, v: View): Verdict {
    if IsListedDenied(r.path) then Denied(403) else Allowlist(r, p, v)
  }

  function HandleApi(r: Request, tripped: bool, identity: Option<Identity>,
                     policy: Option<UserPolicy>, v: View): Verdict
  {
    if tripped then Denied(503)
    else if r.verb == "GET" && IsPublic(r.path) then Pass
    else if identity.None? then Denied(401)
    else if identity.value.isAdmin || identity.value.isOwner then Pass
    else if policy.None? then Denied(403)
    else Restricted(r, policy.value, v)
  }

  /** `policy` is what the store finds for the identity HA reports for the request's token. */
  function Handle(r: Request, tripped: bool, identity: Option<Identity>, policy: Option<UserPolicy>, v: View): Verdict {
    if IsAuth(r.path) then Pass
    else if !IsApi(r.path) then (if r.verb == "GET" then Pass else Denied(403))
    else HandleApi(r, tripped, identity, policy, v)
  }

  /** The body relayed for HA's answer. */
  function Relayed(verdict: Verdict, p: UserPolicy, v: View, status: int, body: Json): Json {
    match verdict
    case StatesFiltered => if status == 200 then FilteredStates(p, v, body) else body
    case Call(_, _, _) => if status == 200 || status == 201 then FilteredStates(p, v, body) else body
    case ConfigRedacted => if status == 200 then JObj(if body.JObj? then Redacted(body.fields) else map[]) else body
    case _ => body
  }

  function FilteredStates(p: UserPolicy, v: View, body: Json): Json {
    JList(if body.JList? then Keep(body.items, ReadableState(ReadOf(p, v))) else [])
  }

  // ---- the switch ----

  /** Tripped, nothing under /api/ is forwarded, not even for an admin; the login endpoints
      and the static shell still are. */
  lemma TrippedForwards(r: Request, identity: Option<Identity>, policy: Option<UserPolicy>, v: View)
    ensures Handle(r, true, identity, policy, v).Forwards() <==> IsAuth(r.path) || (!IsApi(r.path) && r.verb == "GET")
  {}

  // ---- the list of denials says nothing the allowlist does not ----

  /** Every listed denial differs from every allowed path at one of two characters. */
  lemma DeniedCharacters(path: string)
    requires IsListedDenied(path)
    ensures |path| > 10
    ensures path[5] == 't' || path[5] == 'e' || path[5] == 'h' || path[5] == 'l' || path[5] == 'c'
    ensures path[5] == 'c' && path[6] == 'o' ==> |path| > 11
  {}

  lemma AllowedCharacters(path: string)
    ensures IsPlain(path) ==> |path| == 5 || path[5] == 's'
    ensures path == "/api/states" || StartsWith(path, STATES) || StartsWith(path, SERVICES) ==> path[5] == 's'
  {}

  /** The explicit denials are redundant: without them the verdict is the same. */
  lemma DenialsAreRedundant(r: Request, p: UserPolicy, v: View)
    ensures Restricted(r, p, v) == Allowlist(r, p, v)
  {
    if IsListedDenied(r.path) {
      DeniedCharacters(r.path);
      AllowedCharacters(r.path);
      assert r.path != "/api/config";
    }
  }

  // ---- the channels agree ----

  /** A WebSocket command for the same service, with the REST body split the way a client
      library splits it: the target apart, the rest as service data. */
  ghost predicate SameCall(msg: Fields, domain: string, service: string, body: Fields) {
    && Get(msg, "domain") == JStr(domain) && Get(msg, "service") == JStr(service)
    && !Truthy(Get(msg, "return_response"))
    && Get(msg, "target") == Get(body, "target")
    && Get(msg, "service_data") == JObj(body - {"target"})
  }

  lemma TargetIsNoTargetKey(body: Fields, k: TargetKind)
    ensures Get(body - {"target"}, k.Key()) == Get(body, k.Key())
    ensures Get(body - {"target"}, "entity_id") == Get(body, "entity_id")
  {
    assert |"target"| == 6 && |"entity_id"| == 9;
    assert |k.Key()| > 6;
  }

  lemma DemandIgnoresTargetKey(body: Fields, target: Json)
    ensures DemandOf(JObj(body - {"target"}), target) == DemandOf(JObj(body), target)
  {
    TargetIsNoTargetKey(body, DeviceId);
    TargetIsNoTargetKey(body, AreaId);
    TargetIsNoTargetKey(body, LabelId);
    TargetIsNoTargetKey(body, FloorId);
  }

  /** One service call, two channels, one verdict -- but for the services the WebSocket side
      acknowledges without forwarding. */
  lemma ServiceVerdictsAgree(r: Request, p: UserPolicy, v: View, domain: string, service: string, msg: Fields)
    requires StartsWith(r.path, SERVICES) && Split(r.path[|SERVICES|..]) == [domain, service]
    requires domain != "" && service != "" && !r.returnResponse
    requires SameCall(msg, domain, service, BodyOf(r)) && !Commands.SilentService(domain, service)
    ensures CallService(r, p, v).Forwards() <==> Connections.DecideCallService(p, v, msg).Forward?
    ensures CallService(r, p, v).Forwards() ==> CallService(r, p, v) == Call(domain, service, BodyOf(r))
  {
    DemandIgnoresTargetKey(BodyOf(r), Get(BodyOf(r), "target"));
  }

  lemma StatePath(e: string)
    ensures StartsWith(STATES + e, STATES) && (STATES + e)[|STATES|..] == e
    ensures !IsPlain(STATES + e) && STATES + e != "/api/config" && STATES + e != "/api/states"
  {
    var path := STATES + e;
    assert path[..|STATES|] == STATES;
    assert |path| >= 12 && path[6] == 't' && path[5] == 's';
  }

  /** One entity, three channels: its state is kept in a state list, its single state is
      readable, and its changes are relayed -- or none of these. */
  lemma StateChannelsAgree(p: UserPolicy, v: View, e: string, state: Json, states: seq<Json>, event: Fields, body: Json)
    requires StateEntity(state) == Some(e) && state in states && ChangedEntity(event) == Some(e)
    ensures (state in Keep(states, ReadableState(ReadOf(p, v)))) <==>
      Restricted(Request("GET", STATES + e, false, body), p, v).Forwards()
    ensures StateChangedAllowed(event, ReadOf(p, v)) <==>
      Restricted(Request("GET", STATES + e, false, body), p, v).Forwards()
  {
    var r := Request("GET", STATES + e, false, body);
    StatePath(e);
    DenialsAreRedundant(r, p, v);
  }

  // ---- grants and age are monotone on this channel too ----

  lemma CallServiceIsMonotone(r: Request, p: UserPolicy, q: UserPolicy, v1: View, v2: View)
    requires StartsWith(r.path, SERVICES) && GrantsAtLeast(q, p) && Later(v1, v2)
    ensures CallService(r, p, v2).Forwards() ==> CallService(r, q, v1) == CallService(r, p, v2)
  {
    var body := BodyOf(r);
    if CallAllowed(p, v2, JObj(body), Get(body, "target")) {
      CallsAreMonotone(p, q, v1, v2, JObj(body), Get(body, "target"));
    }
  }

  lemma StateSingleIsMonotone(r: Request, p: UserPolicy, q: UserPolicy, v1: View, v2: View)
    requires StartsWith(r.path, STATES) && GrantsAtLeast(q, p) && Later(v1, v2)
    ensures StateSingle(r, p, v2).Forwards() ==> StateSingle(r, q, v1) == StateSingle(r, p, v2)
  {
    AccessIsMonotone(p, q, v1, v2);
  }

  /** Under more rules, or earlier, a forwarded request is still forwarded in the same way
      and a relayed list still holds every element it held. */
  lemma RestIsMonotone(r: Request, p: UserPolicy, q: UserPolicy, v1: View, v2: View)
    requires GrantsAtLeast(q, p) && Later(v1, v2)
    ensures Restricted(r, p, v2).Forwards() ==> Restricted(r, q, v1) == Restricted(r, p, v2)
  {
    if StartsWith(r.path, STATES) { StateSingleIsMonotone(r, p, q, v1, v2); }
    if StartsWith(r.path, SERVICES) { CallServiceIsMonotone(r, p, q, v1, v2); }
  }

  lemma ListsAreMonotone(states: seq<Json>, p: UserPolicy, q: UserPolicy, v1: View, v2: View)
    requires GrantsAtLeast(q, p) && Later(v1, v2)
    ensures Keep(Keep(states, ReadableState(ReadOf(q, v1))), ReadableState(ReadOf(p, v2))) ==
      Keep(states, ReadableState(ReadOf(p, v2)))
  {
    AccessIsMonotone(p, q, v1, v2);
    var outer, inner := ReadableState(ReadOf(p, v2)), ReadableState(ReadOf(q, v1));
    forall s | s in states && outer(s)
      ensures inner(s)
    {
      assert AllowedRead(p, v2, StateEntity(s).value);
    }
    KeepKeep(states, outer, inner);
  }
}
