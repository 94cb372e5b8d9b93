/** What the strict parser accepts and what an accepted file grants, read off the document
    itself. */
module PolicyDocuments {
  import opened Collections
  import opened JsonValues
  import opened Policies

  // ---- one rule ----

  /** `access` may be left out and then reads. */
  predicate ReadsOnly(item: Json) {
    item.JObj? && ("access" !in item.fields || item.fields["access"] == JStr("read"))
  }

  predicate Controls(item: Json) {
    item.JObj? && "access" in item.fields && item.fields["access"] == JStr("control")
  }

  predicate IsFor(item: Json, id: string) {
    item.JObj? && "id" in item.fields && item.fields["id"] == JStr(id)
  }

  /** An object with a non-empty id of the right shape and no key but `id` and `access`. */
  predicate GoodItem(item: Json, kind: RuleKind) {
    && item.JObj? && (forall k :: k in item.fields ==> k == "id" || k == "access")
    && "id" in item.fields && item.fields["id"].JStr? && item.fields["id"].s != ""
    && (kind.EntityRule? ==> '.' in item.fields["id"].s)
    && (kind.DomainRule? ==> '.' !in item.fields["id"].s)
    && (ReadsOnly(item) || Controls(item))
  }

  lemma ItemExactly(item: Json, kind: RuleKind)
    ensures RuleOf(item, kind).Some? <==> GoodItem(item, kind)
    ensures RuleOf(item, kind).Some? ==>
      IsFor(item, RuleOf(item, kind).value.id) && (RuleOf(item, kind).value.control <==> Controls(item))
  {
    assert |"read"| == 4 && |"control"| == 7;
    if item.JObj? {
      assert item.fields.Keys <= {"id", "access"} <==> forall k :: k in item.fields ==> k == "id" || k == "access";
    }
  }

  // ---- one list of rules ----

  predicate GoodList(items: Json, kind: RuleKind) {
    items.JNull? || (items.JList? && forall it | it in items.items :: GoodItem(it, kind))
  }

  lemma ListExactly(items: Json, kind: RuleKind)
    ensures RulesOf(items, kind).Some? <==> GoodList(items, kind)
  {
    if items.JList? {
      forall i | 0 <= i < |items.items|
        ensures RuleOf(items.items[i], kind).Some? <==> GoodItem(items.items[i], kind)
      {
        ItemExactly(items.items[i], kind);
      }
    }
  }

  ghost predicate AsksFor(items: Json, id: string, control: bool) {
    items.JList? && exists it :: it in items.items && IsFor(it, id) && if control then Controls(it) else ReadsOnly(it)
  }

  lemma RulesAskFor(items: Json, kind: RuleKind, id: string, control: bool)
    requires RulesOf(items, kind).Some?
    ensures id in IdsAt(RulesOf(items, kind).value, control) <==> AsksFor(items, id, control)
  {
    var rules := RulesOf(items, kind).value;
    if id in IdsAt(rules, control) {
      var i :| 0 <= i < |rules| && rules[i].id == id && rules[i].control == control;
      ItemExactly(items.items[i], kind);
      assert items.items[i] in items.items;
    }
    if AsksFor(items, id, control) {
      var it :| it in items.items && IsFor(it, id) && if control then Controls(it) else ReadsOnly(it);
      var i :| 0 <= i < |items.items| && items.items[i] == it;
      ItemExactly(it, kind);
      assert rules[i] in rules && rules[i].id == id;
    }
  }

  // ---- the whole document ----

  predicate OnlyKeys(j: Json, keys: seq<string>) {
    j.JObj? && forall k | k in j.fields :: k in keys
  }

  /** A part of the document, null when it is left out. */
  function Part(j: Json, key: string): Json {
    if j.JObj? && key in j.fields then j.fields[key] else JNull
  }

  function KindKey(kind: RuleKind): string {
    match kind
    case EntityRule => "entities"
    case DomainRule => "domains"
    case AreaRule => "areas"
  }

  function RuleList(root: Json, kind: RuleKind): Json {
    Part(Part(root, "allow"), KindKey(kind))
  }

  predicate StringOrNull(j: Json) {
    j.JNull? || j.JStr?
  }

  predicate Filled(j: Json) {
    j.JStr? && j.s != ""
  }

  predicate GoodUser(user: Json) {
    && OnlyKeys(user, ["id", "name"])
    && StringOrNull(Part(user, "id")) && StringOrNull(Part(user, "name"))
    && (Filled(Part(user, "id")) <==> !Filled(Part(user, "name")))
  }

  predicate GoodAllow(allow: Json) {
    && OnlyKeys(allow, ["entities", "areas", "domains", "token_creation"])
    && GoodList(Part(allow, "entities"), EntityRule)
    && GoodList(Part(allow, "areas"), AreaRule)
    && GoodList(Part(allow, "domains"), DomainRule)
    && ("token_creation" in allow.fields ==> allow.fields["token_creation"].JBool?)
  }

  predicate GoodDashboards(dash: Json) {
    && OnlyKeys(dash, ["default", "allowed"])
    && StringOrNull(Part(dash, "default"))
    && ("allowed" in dash.fields ==>
          dash.fields["allowed"].JList? && forall d | d in dash.fields["allowed"].items :: d.JStr?)
  }

  /** The user is named by exactly one of id and name; allow and dashboards may be left out,
      but when they are there they are mappings; and there is no unknown key anywhere. */
  predicate Acceptable(root: Json) {
    && OnlyKeys(root, ["user", "allow", "dashboards"])
    && "user" in root.fields && GoodUser(root.fields["user"])
    && ("allow" in root.fields ==> GoodAllow(root.fields["allow"]))
    && ("dashboards" in root.fields ==> GoodDashboards(root.fields["dashboards"]))
  }

  lemma UserExactly(user: Json)
    ensures GoodUser(user) <==>
      Mapping(user, {"id", "name"}) && NullOrString(Get(user.fields, "id")) && NullOrString(Get(user.fields, "name")) &&
      Truthy(Get(user.fields, "id")) != Truthy(Get(user.fields, "name"))
  {
    if user.JObj? {
      assert user.fields.Keys <= {"id", "name"} <==> forall k | k in user.fields :: k in ["id", "name"];
    }
  }

  lemma AllowExactly(allow: Json)
    ensures GoodAllow(allow) <==>
      Mapping(allow, {"entities", "areas", "domains", "token_creation"}) &&
      RulesOf(Get(allow.fields, "entities"), EntityRule).Some? && RulesOf(Get(allow.fields, "areas"), AreaRule).Some? &&
      RulesOf(Get(allow.fields, "domains"), DomainRule).Some? &&
      GetOr(allow.fields, "token_creation", JBool(false)).JBool?
  {
    if allow.JObj? {
      assert allow.fields.Keys <= {"entities", "areas", "domains", "token_creation"} <==>
        forall k | k in allow.fields :: k in ["entities", "areas", "domains", "token_creation"];
      ListExactly(Get(allow.fields, "entities"), EntityRule);
      ListExactly(Get(allow.fields, "areas"), AreaRule);
      ListExactly(Get(allow.fields, "domains"), DomainRule);
    }
  }

  lemma DashboardsExactly(dash: Json)
    ensures GoodDashboards(dash) <==>
      Mapping(dash, {"default", "allowed"}) && NullOrString(Get(dash.fields, "default")) &&
      StringList(GetOr(dash.fields, "allowed", JList([])))
  {
    if dash.JObj? {
      assert dash.fields.Keys <= {"default", "allowed"} <==> forall k | k in dash.fields :: k in ["default", "allowed"];
    }
  }

  lemma LeftOutIsGood()
    ensures GoodAllow(JObj(map[])) && GoodDashboards(JObj(map[]))
  {}

  lemma PartsExactly(root: Json)
    ensures DocumentOf(root).Some? && WellTyped(DocumentOf(root).value) <==>
      Mapping(root, {"user", "allow", "dashboards"}) &&
      GoodUser(Get(root.fields, "user")) && GoodAllow(GetOr(root.fields, "allow", JObj(map[]))) &&
      GoodDashboards(GetOr(root.fields, "dashboards", JObj(map[])))
  {
    if root.JObj? {
      UserExactly(Get(root.fields, "user"));
      AllowExactly(GetOr(root.fields, "allow", JObj(map[])));
      DashboardsExactly(GetOr(root.fields, "dashboards", JObj(map[])));
    }
  }

  /** The parser accepts exactly these documents. */
  lemma AcceptedExactly(root: Json, sourceFile: string)
    ensures PolicyOf(root, sourceFile).Some? <==> Acceptable(root)
  {
    PartsExactly(root);
    LeftOutIsGood();
    if root.JObj? {
      assert root.fields.Keys <= {"user", "allow", "dashboards"} <==>
        forall k | k in root.fields :: k in ["user", "allow", "dashboards"];
    }
  }

  function StringPart(j: Json): Option<string> {
    if j.JStr? then Some(j.s) else None
  }

  lemma DocumentParts(root: Json, kind: RuleKind)
    requires DocumentOf(root).Some?
    ensures var d := DocumentOf(root).value;
      d.Rules(kind) == RuleList(root, kind) &&
      d.uid == Part(Part(root, "user"), "id") && d.uname == Part(Part(root, "user"), "name") &&
      (d.token == JBool(true) <==> Part(Part(root, "allow"), "token_creation") == JBool(true)) &&
      d.default == Part(Part(root, "dashboards"), "default") &&
      (Part(Part(root, "dashboards"), "allowed").JNull? || d.allowed == Part(Part(root, "dashboards"), "allowed"))
  {}

  /** An accepted file grants exactly what it says: each id at each level that some rule of
      the list asks for it, a rule without a level reading only; token management only for
      `true`; and its user and dashboards are the ones it names. */
  lemma ParsedExactly(root: Json, sourceFile: string, kind: RuleKind, id: string)
    requires PolicyOf(root, sourceFile).Some?
    ensures var p := PolicyOf(root, sourceFile).value;
      (id in p.control.Of(kind) <==> AsksFor(RuleList(root, kind), id, true)) &&
      (id in p.read.Of(kind) <==> AsksFor(RuleList(root, kind), id, false)) &&
      (p.tokenCreation <==> Part(Part(root, "allow"), "token_creation") == JBool(true))
    ensures var p := PolicyOf(root, sourceFile).value;
      p.sourceFile == sourceFile &&
      p.matchUserId == StringPart(Part(Part(root, "user"), "id")) &&
      p.matchUserName == StringPart(Part(Part(root, "user"), "name"))
  {
    var d := DocumentOf(root).value;
    DocumentParts(root, kind);
    RulesAskFor(d.Rules(kind), kind, id, true);
    RulesAskFor(d.Rules(kind), kind, id, false);
  }

  lemma ParsedDashboards(root: Json, sourceFile: string, dashboard: string)
    requires PolicyOf(root, sourceFile).Some?
    ensures var p := PolicyOf(root, sourceFile).value;
      var allowed := Part(Part(root, "dashboards"), "allowed");
      p.defaultDashboard == StringPart(Part(Part(root, "dashboards"), "default")) &&
      (dashboard in p.allowedDashboards <==> allowed.JList? && JStr(dashboard) in allowed.items)
  {
    DocumentParts(root, EntityRule);
    AcceptedExactly(root, sourceFile);
  }
}
