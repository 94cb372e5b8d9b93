/** The REST side from request to relayed body, read off the request, the policy and HA's
    answer themselves. */
module RestResponses {
  import opened Collections
  import opened JsonValues
  import opened Registry
  import opened Policies
  import opened Grants
  import opened RestProxy
  import Payloads

  predicate Begins(path: string, prefix: string) {
    |path| >= |prefix| && path[..|prefix|] == prefix
  }

  predicate Login(path: string) {
    Begins(path, "/auth/")
  }

  predicate Api(path: string) {
    Begins(path, "/api/")
  }

  /** Endpoints HA itself serves without authentication. */
  predicate Public(path: string) {
    || Begins(path, "/api/assist_satellite/connection_test/")
    || Begins(path, "/api/tts_proxy/")
    || Begins(path, "/api/esphome/ffmpeg_proxy/")
  }

  /** What anybody may have forwarded, whoever they are, while the switch is off. */
  predicate Open(r: Request) {
    Login(r.path) || (r.verb == "GET" && (!Api(r.path) || Public(r.path)))
  }

  predicate Plain(r: Request) {
    r.verb == "GET" && (r.path == "/api/" || r.path == "/api/services")
  }

  /** The request is for the state of this one entity. */
  predicate OneState(r: Request, e: string) {
    r.verb == "GET" && r.path == "/api/states/" + e
  }

  /** The request is a call of this service, without asking for a response. */
  predicate ServiceCall(r: Request, domain: string, service: string) {
    && r.verb == "POST" && !r.returnResponse
    && domain != "" && service != "" && '/' !in domain && '/' !in service
    && r.path == "/api/services/" + domain + "/" + service
  }

  function Body(r: Request): Fields {
    match r.body
    case JObj(fields) => fields
    case _ => map[]
  }

  predicate Ordinary(identity: Option<Identity>) {
    identity.Some? && !identity.value.isAdmin && !identity.value.isOwner
  }

  lemma PrefixesAgree(path: string)
    ensures IsAuth(path) <==> Login(path)
    ensures IsApi(path) <==> Api(path)
    ensures IsPublic(path) <==> Public(path)
  {}

  // ---- who gets how far ----

  /** Before any policy is asked: the login endpoints and the static shell are always open,
      a tripped gateway forwards nothing else, the public endpoints need no token, everything
      else needs one, an admin passes, and a user without a policy is refused. */
  lemma GateExactly(r: Request, tripped: bool, identity: Option<Identity>, policy: Option<UserPolicy>, v: View)
    ensures Handle(r, tripped, identity, policy, v) ==
      if Login(r.path) || (!Api(r.path) && r.verb == "GET") then Pass
      else if !Api(r.path) then Denied(403)
      else if tripped then Denied(503)
      else if Open(r) then Pass
      else if identity.None? then Denied(401)
      else if !Ordinary(identity) then Pass
      else if policy.None? then Denied(403)
      else Restricted(r, policy.value, v)
  {
    PrefixesAgree(r.path);
  }

  // ---- what a policy lets through ----

  lemma StatePrefix(path: string)
    ensures StartsWith(path, STATES) <==> exists e :: path == "/api/states/" + e
  {
    if StartsWith(path, STATES) {
      assert path == "/api/states/" + path[|STATES|..];
    }
    if e :| path == "/api/states/" + e {
      assert path[..|STATES|] == STATES;
    }
  }

  /** A path is split into two non-empty parts exactly when it is two names and one slash. */
  lemma SplitTwo(s: string, a: string, b: string)
    ensures Split(s) == [a, b] <==> '/' !in a && '/' !in b && s == a + "/" + b
  {
    SplitJoins(s);
    if Split(s) == [a, b] {
      assert a in Split(s) && b in Split(s);
      assert Split(s)[1..] == [b];
    }
    if '/' !in a && '/' !in b && s == a + "/" + b {
      SplitOf(a, b);
    }
  }

  lemma {:induction false} SplitOne(b: string)
    requires '/' !in b
    ensures Split(b) == [b]
  {
    if b == "" {
    } else {
      SplitOne(b[1..]);
      assert b == [b[0]] + b[1..];
    }
  }

  lemma {:induction false} SplitOf(a: string, b: string)
    requires '/' !in a && '/' !in b
    ensures Split(a + "/" + b) == [a, b]
  {
    var s := a + "/" + b;
    if a == "" {
      SplitOne(b);
      assert s[0] == '/' && s[1..] == b;
    } else {
      SplitOf(a[1..], b);
      assert s[0] == a[0] && s[1..] == a[1..] + "/" + b;
      assert a == [a[0]] + a[1..];
    }
  }

  lemma ServicePath(r: Request, a: string, b: string)
    ensures StartsWith(r.path, SERVICES) && Split(r.path[|SERVICES|..]) == [a, b] <==>
      '/' !in a && '/' !in b && r.path == "/api/services/" + a + "/" + b
  {
    Grouped(SERVICES, a, "/", b);
    assert (SERVICES + (a + "/" + b))[..|SERVICES|] == SERVICES;
    if StartsWith(r.path, SERVICES) {
      assert r.path == SERVICES + r.path[|SERVICES|..];
      SplitTwo(r.path[|SERVICES|..], a, b);
      if r.path == "/api/services/" + a + "/" + b { Cancels(SERVICES, r.path[|SERVICES|..], a + "/" + b); }
    }
  }

  lemma Grouped(p: string, a: string, s: string, b: string)
    ensures p + a + s + b == p + (a + s + b)
  {}

  lemma Cancels(p: string, x: string, y: string)
    requires p + x == p + y
    ensures x == y
  {
    assert (p + x)[|p|..] == x && (p + y)[|p|..] == y;
  }

  /** The verdict on a request of a user with a policy, each way round. */
  ghost predicate RightVerdict(r: Request, p: UserPolicy, v: View, verdict: Verdict) {
    match verdict
    case Pass => Plain(r) || exists e :: OneState(r, e) && (RuledBy(p.control, v, e) || RuledBy(p.read, v, e))
    case ConfigRedacted => r.verb == "GET" && r.path == "/api/config"
    case StatesFiltered => r.verb == "GET" && r.path == "/api/states"
    case Call(domain, service, body) =>
      ServiceCall(r, domain, service) && body == Body(r) && MayCall(p, v, JObj(body), Get(body, "target"))
    case Denied(status) => status == 403
  }

  /** Some verdict but a refusal is right. */
  ghost predicate Grantable(r: Request, p: UserPolicy, v: View) {
    || RightVerdict(r, p, v, Pass) || RightVerdict(r, p, v, ConfigRedacted) || RightVerdict(r, p, v, StatesFiltered)
    || exists domain, service :: ServiceCall(r, domain, service) && MayCall(p, v, JObj(Body(r)), Get(Body(r), "target"))
  }

  lemma StateExactly(r: Request, p: UserPolicy, v: View)
    requires StartsWith(r.path, STATES)
    ensures RightVerdict(r, p, v, StateSingle(r, p, v)) || (r.verb != "GET" || IsPlain(r.path))
    ensures r.verb == "GET" && StateSingle(r, p, v).Denied? ==>
      forall e :: OneState(r, e) ==> !RuledBy(p.control, v, e) && !RuledBy(p.read, v, e)
  {
    var e := r.path[|STATES|..];
    assert r.path == STATES + e;
    AccessExactly(p, v, e);
    forall f | OneState(r, f)
      ensures f == e
    {
      Cancels(STATES, f, e);
    }
  }

  lemma CallExactlyRest(r: Request, p: UserPolicy, v: View)
    requires StartsWith(r.path, SERVICES) && r.verb == "POST"
    ensures RightVerdict(r, p, v, CallService(r, p, v))
    ensures CallService(r, p, v).Denied? ==> !exists domain, service ::
      ServiceCall(r, domain, service) && MayCall(p, v, JObj(Body(r)), Get(Body(r), "target"))
  {
    var parts := Split(r.path[|SERVICES|..]);
    CallExactly(p, v, JObj(Body(r)), Get(Body(r), "target"));
    if |parts| == 2 {
      assert parts == [parts[0], parts[1]];
      ServicePath(r, parts[0], parts[1]);
    }
    forall domain, service | ServiceCall(r, domain, service)
      ensures parts == [domain, service]
    {
      ServicePath(r, domain, service);
    }
  }

  lemma PlainIsNeither(r: Request)
    requires Plain(r) || r.path == "/api/config" || r.path == "/api/states"
    ensures !StartsWith(r.path, STATES) && !StartsWith(r.path, SERVICES)
  {
    if r.path == "/api/services" { assert r.path[6] == 'e' && STATES[6] == 't'; }
  }

  /** The verdict is right; and it is a refusal only when nothing else is right. */
  lemma VerdictExactly(r: Request, p: UserPolicy, v: View)
    ensures RightVerdict(r, p, v, Restricted(r, p, v))
    ensures Restricted(r, p, v).Denied? ==> !Grantable(r, p, v)
  {
    DenialsAreRedundant(r, p, v);
    StatePrefix(r.path);
    if r.verb == "GET" && StartsWith(r.path, STATES) {
      StateExactly(r, p, v);
    }
    if r.verb == "POST" && StartsWith(r.path, SERVICES) {
      CallExactlyRest(r, p, v);
    }
    forall domain, service | ServiceCall(r, domain, service)
      ensures StartsWith(r.path, SERVICES)
    {
      ServicePath(r, domain, service);
    }
    if Plain(r) || r.path == "/api/config" || r.path == "/api/states" { PlainIsNeither(r); }
  }

  // ---- what comes back ----

  /** The list of readable states of HA's answer, in order; empty on any other shape. */
  predicate OnlyReadable(p: UserPolicy, v: View, body: Json, relayed: Json) {
    Payloads.Selected(body, relayed, (s: Json) => Payloads.GoodState(p, v, s))
  }

  lemma StatesSelected(p: UserPolicy, v: View, body: Json)
    ensures OnlyReadable(p, v, body, FilteredStates(p, v, body))
  {
    Payloads.StatesExactly(p, v, body);
  }

  /** What a user with a policy is relayed for HA's answer. A successful state list and the
      changed states of a service call hold exactly the readable states, in order, and a
      configuration no coordinates, each empty on an unexpected shape. Everything else HA
      answers, failures too, is relayed as it is. `v'` is the registry view when the answer
      comes. */
  lemma RelayedExactly(r: Request, p: UserPolicy, v: View, v': View, status: int, body: Json)
    ensures var verdict := Restricted(r, p, v);
      var relayed := Relayed(verdict, p, v', status, body);
      if (verdict.StatesFiltered? && status == 200) || (verdict.Call? && (status == 200 || status == 201))
      then OnlyReadable(p, v', body, relayed)
      else if verdict.ConfigRedacted? && status == 200 then Payloads.RightConfig(body, relayed)
      else relayed == body
  {
    StatesSelected(p, v', body);
    if body.JObj? { Payloads.ConfigExactly(body.fields); }
  }

  /** End to end, for a restricted user: the state list by its path, a service call by its
      path, the configuration by its path; and a successful answer is relayed unexamined only
      to requests that are open to anybody, plain, or for the state of one readable entity. */
  lemma AnsweredExactly(r: Request, identity: Option<Identity>, p: UserPolicy, v: View, v': View,
                        status: int, body: Json)
    requires Ordinary(identity)
    ensures var verdict := Handle(r, false, identity, Some(p), v);
      var relayed := Relayed(verdict, p, v', status, body);
      (r.verb == "GET" && r.path == "/api/states" && status == 200 ==>
         verdict.Forwards() && OnlyReadable(p, v', body, relayed)) &&
      (r.verb == "GET" && r.path == "/api/config" && status == 200 ==>
         verdict.Forwards() && Payloads.RightConfig(body, relayed)) &&
      (r.verb == "POST" && Begins(r.path, "/api/services/") && verdict.Forwards() &&
       (status == 200 || status == 201) ==>
         OnlyReadable(p, v', body, relayed))
    ensures Handle(r, false, identity, Some(p), v).Pass? <==>
      || Open(r) || Plain(r)
      || exists e :: OneState(r, e) && (RuledBy(p.control, v, e) || RuledBy(p.read, v, e))
  {
    GateExactly(r, false, identity, Some(p), v);
    VerdictExactly(r, p, v);
    RelayedExactly(r, p, v, v', status, body);
    ApiPaths(r, p, v);
    if r.path == "/api/states" || r.path == "/api/config" || Begins(r.path, "/api/services/") { NamedPaths(r.path); }
    if Plain(r) || exists e :: OneState(r, e) { OthersAreApi(r); }
  }

  lemma ApiIsNotLogin(path: string)
    ensures Api(path) ==> !Login(path)
  {
    if Api(path) {
      assert path[2] == path[..5][2] == 'p';
      if |path| >= 6 { assert path[..6][2] == path[2] != "/auth/"[2]; }
    }
  }

  lemma NotPublic(path: string)
    requires |path| > 5 && (path[5] == 's' || path[5] == 'c')
    ensures !Public(path)
  {
    PublicCharacter(path);
  }

  lemma PublicCharacter(path: string)
    ensures Public(path) ==> path[5] == 'a' || path[5] == 't' || path[5] == 'e'
  {
    AllowedAt(path, "/api/assist_satellite/connection_test/");
    AllowedAt(path, "/api/tts_proxy/");
    AllowedAt(path, "/api/esphome/ffmpeg_proxy/");
  }

  lemma AllowedAt(path: string, prefix: string)
    requires |prefix| > 5
    ensures Begins(path, prefix) ==> path[5] == prefix[5]
  {
    if Begins(path, prefix) { assert path[..|prefix|][5] == path[5]; }
  }

  lemma NamedPaths(path: string)
    requires path == "/api/states" || path == "/api/config" || Begins(path, "/api/services/")
    ensures Api(path) && !Login(path) && !Public(path)
  {
    AllowedAt(path, "/api/services/");
    if Begins(path, "/api/services/") { assert path[..14][..5] == path[..5]; }
    ApiIsNotLogin(path);
    NotPublic(path);
  }

  lemma ApiPaths(r: Request, p: UserPolicy, v: View)
    ensures r.verb == "GET" && r.path == "/api/states" ==> Restricted(r, p, v) == StatesFiltered
    ensures r.verb == "GET" && r.path == "/api/config" ==> Restricted(r, p, v) == ConfigRedacted
    ensures r.verb == "POST" ==> Restricted(r, p, v).Denied? || Restricted(r, p, v).Call?
  {
    DenialsAreRedundant(r, p, v);
    PlainPathsDiffer(r.path);
    assert |"GET"| == 3 && |"POST"| == 4;
  }

  lemma PlainPathsDiffer(path: string)
    ensures path == "/api/states" ==> !IsPlain(path) && path != "/api/config"
    ensures path == "/api/config" ==> !IsPlain(path)
  {}

  lemma OthersAreApi(r: Request)
    requires Plain(r) || exists e :: OneState(r, e)
    ensures Api(r.path) && !Login(r.path)
  {
    if e :| OneState(r, e) {
      assert r.path[..12] == "/api/states/";
      assert r.path[..12][..5] == r.path[..5];
    }
    ApiIsNotLogin(r.path);
  }
}
