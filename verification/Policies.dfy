/** Policy documents: the strict parser and the value it produces. */
module Policies {
  import opened Collections
  import opened JsonValues

  datatype Identity = Identity(userId: string, name: string, isAdmin: bool, isOwner: bool)

  datatype RuleKind = EntityRule | DomainRule | AreaRule

  /** Access rules for one level, read or control. */
  datatype RuleSet = RuleSet(entities: set<string>, domains: set<string>, areas: set<string>) {
    function Of(kind: RuleKind): set<string> {
      match kind
      case EntityRule => entities
      case DomainRule => domains
      case AreaRule => areas
    }
  }

  datatype UserPolicy = UserPolicy(
    sourceFile: string,
    matchUserId: Option<string>,
    matchUserName: Option<string>,
    read: RuleSet,
    control: RuleSet,
    defaultDashboard: Option<string>,
    allowedDashboards: set<string>,
    tokenCreation: bool)
  {
    predicate Matches(identity: Identity) {
      if matchUserId.Some? then identity.userId == matchUserId.value
      else matchUserName == Some(identity.name)
    }

    predicate HasDefault() {
      defaultDashboard.Some? && defaultDashboard.value != ""
    }

    function Dashboards(): set<string> {
      allowedDashboards + if HasDefault() then {defaultDashboard.value} else {}
    }
  }

  datatype Rule = Rule(id: string, control: bool)

  predicate WellFormedId(id: string, kind: RuleKind) {
    && id != ""
    && (kind == EntityRule ==> '.' in id)
    && (kind == DomainRule ==> '.' !in id)
  }

  function RuleOf(item: Json, kind: RuleKind): Option<Rule> {
    if !item.JObj? || !(item.fields.Keys <= {"id", "access"}) then None
    else
      var id := Get(item.fields, "id");
      var access := if "access" in item.fields then item.fields["access"] else JStr("read");
      if !id.JStr? || !WellFormedId(id.s, kind) || access !in [JStr("read"), JStr("control")] then None
      else Some(Rule(id.s, access == JStr("control")))
  }

  /** One of the entities/areas/domains lists; `None` is a rejected document. */
  function RulesOf(items: Json, kind: RuleKind): Option<seq<Rule>> {
    if items.JNull? then Some([])
    else if !items.JList? || exists i | 0 <= i < |items.items| :: RuleOf(items.items[i], kind).None? then None
    else
      Some(seq(|items.items|, i requires 0 <= i < |items.items| && RuleOf(items.items[i], kind).Some? =>
        RuleOf(items.items[i], kind).value))
  }

  method ParseRules(items: Json, kind: RuleKind) returns (r: Option<seq<Rule>>)
    ensures r == RulesOf(items, kind)
  {
    if items.JNull? { return Some([]); }
    if !items.JList? { return None; }
    var out := [];
    for i := 0 to |items.items|
      invariant |out| == i
      invariant forall k :: 0 <= k < i ==> RuleOf(items.items[k], kind) == Some(out[k])
    {
      var rule := RuleOf(items.items[i], kind);
      if rule.None? { return None; }
      out := out + [rule.value];
    }
    assert out == RulesOf(items, kind).value;
    return Some(out);
  }

  function IdsAt(rules: seq<Rule>, control: bool): set<string> {
    set r | r in rules && r.control == control :: r.id
  }

  function GetOr(d: Fields, key: string, default: Json): Json {
    if key in d then d[key] else default
  }

  /** `root` as an object whose keys are all known. */
  predicate Mapping(j: Json, keys: set<string>) {
    j.JObj? && j.fields.Keys <= keys
  }

  /** The parts of a policy document that carry meaning. */
  datatype Document = Document(
    uid: Json, uname: Json, entities: Json, areas: Json, domains: Json, token: Json, default: Json, allowed: Json)
  {
    function Rules(kind: RuleKind): Json {
      match kind
      case EntityRule => entities
      case DomainRule => domains
      case AreaRule => areas
    }
  }

  /** Takes a document apart; `None` when a part is not a mapping or has an unknown key. */
  function DocumentOf(root: Json): Option<Document> {
    if !Mapping(root, {"user", "allow", "dashboards"}) then None
    else
      var user := Get(root.fields, "user");
      var allow := GetOr(root.fields, "allow", JObj(map[]));
      var dash := GetOr(root.fields, "dashboards", JObj(map[]));
      if !Mapping(user, {"id", "name"}) || !Mapping(allow, {"entities", "areas", "domains", "token_creation"}) ||
         !Mapping(dash, {"default", "allowed"})
      then None
      else
        Some(Document(
          Get(user.fields, "id"), Get(user.fields, "name"),
          Get(allow.fields, "entities"), Get(allow.fields, "areas"), Get(allow.fields, "domains"),
          GetOr(allow.fields, "token_creation", JBool(false)),
          Get(dash.fields, "default"), GetOr(dash.fields, "allowed", JList([]))))
  }

  predicate StringList(j: Json) {
    j.JList? && forall d | d in j.items :: d.JStr?
  }

  predicate WellTyped(d: Document) {
    && NullOrString(d.uid) && NullOrString(d.uname) && Truthy(d.uid) != Truthy(d.uname)
    && d.token.JBool? && NullOrString(d.default) && StringList(d.allowed)
    && RulesOf(d.entities, EntityRule).Some? && RulesOf(d.areas, AreaRule).Some? && RulesOf(d.domains, DomainRule).Some?
  }

  /** What a document grants. */
  function PolicyFrom(d: Document, sourceFile: string): UserPolicy
    requires WellTyped(d)
  {
    UserPolicy(sourceFile, OptString(d.uid), OptString(d.uname), RuleSetAt(d, false), RuleSetAt(d, true),
               OptString(d.default), StringsOf(d.allowed.items), d.token.b)
  }

  function RuleSetAt(d: Document, control: bool): RuleSet
    requires WellTyped(d)
  {
    RuleSet(IdsAt(RulesOf(d.entities, EntityRule).value, control),
            IdsAt(RulesOf(d.domains, DomainRule).value, control),
            IdsAt(RulesOf(d.areas, AreaRule).value, control))
  }

  /** `parse_policy`: `None` is a `PolicyError`. */
  function PolicyOf(root: Json, sourceFile: string): Option<UserPolicy> {
    var d := DocumentOf(root);
    if d.Some? && WellTyped(d.value) then Some(PolicyFrom(d.value, sourceFile)) else None
  }

  function StringsOf(items: seq<Json>): set<string> {
    set d | d in items && d.JStr? :: d.s
  }

  /** Distributes one parsed list over the read and control sets. */
  method FillBuckets(rules: seq<Rule>) returns (readIds: set<string>, controlIds: set<string>)
    ensures readIds == IdsAt(rules, false) && controlIds == IdsAt(rules, true)
  {
    readIds, controlIds := {}, {};
    for i := 0 to |rules|
      invariant readIds == IdsAt(rules[..i], false) && controlIds == IdsAt(rules[..i], true)
    {
      assert rules[..i + 1] == rules[..i] + [rules[i]];
      if rules[i].control {
        controlIds := controlIds + {rules[i].id};
      } else {
        readIds := readIds + {rules[i].id};
      }
    }
    assert rules[..|rules|] == rules;
  }

  method ParsePolicy(root: Json, sourceFile: string) returns (r: Option<UserPolicy>)
    ensures r == PolicyOf(root, sourceFile)
  {
    if !Mapping(root, {"user", "allow", "dashboards"}) { return None; }
    var user := Get(root.fields, "user");
    if !Mapping(user, {"id", "name"}) { return None; }
    var uid, uname := Get(user.fields, "id"), Get(user.fields, "name");
    if !NullOrString(uid) || !NullOrString(uname) || Truthy(uid) == Truthy(uname) { return None; }

    var allow := GetOr(root.fields, "allow", JObj(map[]));
    if !Mapping(allow, {"entities", "areas", "domains", "token_creation"}) { return None; }
    var token := GetOr(allow.fields, "token_creation", JBool(false));
    if !token.JBool? { return None; }

    var entities := ParseRules(Get(allow.fields, "entities"), EntityRule);
    if entities.None? { return None; }
    var readEnt, ctlEnt := FillBuckets(entities.value);
    var domains := ParseRules(Get(allow.fields, "domains"), DomainRule);
    if domains.None? { return None; }
    var readDom, ctlDom := FillBuckets(domains.value);
    var areas := ParseRules(Get(allow.fields, "areas"), AreaRule);
    if areas.None? { return None; }
    var readArea, ctlArea := FillBuckets(areas.value);

    var dash := GetOr(root.fields, "dashboards", JObj(map[]));
    if !Mapping(dash, {"default", "allowed"}) { return None; }
    var default := Get(dash.fields, "default");
    var allowed := GetOr(dash.fields, "allowed", JList([]));
    if !NullOrString(default) || !StringList(allowed) { return None; }
    return Some(UserPolicy(
      sourceFile, OptString(uid), OptString(uname),
      RuleSet(readEnt, readDom, readArea), RuleSet(ctlEnt, ctlDom, ctlArea),
      OptString(default), StringsOf(allowed.items), token.b));
  }
}
