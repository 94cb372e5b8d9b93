/** The editor form of a policy: written from a policy, and turned back into a document. */
module PolicyEditor {
  import opened Collections
  import opened JsonValues
  import opened Policies
  import opened PolicyDocuments

  // ---- policy -> editor ----

  function AccessOf(control: bool): Json {
    JStr(if control then "control" else "read")
  }

  function EntryOf(id: Json, access: Json): Json {
    JObj(map["id" := id, "access" := access])
  }

  function Entries(ids: seq<string>, control: bool): (r: seq<Json>)
    ensures |r| == |ids|
  {
    seq(|ids|, i requires 0 <= i < |ids| => EntryOf(JStr(ids[i]), AccessOf(control)))
  }

  function Strings(ids: seq<string>): (r: seq<Json>)
    ensures |r| == |ids|
  {
    seq(|ids|, i requires 0 <= i < |ids| => JStr(ids[i]))
  }

  /** Control entries first, then the ids that are only read. */
  function Merged(control: set<string>, read: set<string>): seq<Json> {
    Entries(Sorted(control), true) + Entries(Sorted(read - control), false)
  }

  function JsonOf(s: Option<string>): Json {
    if s.Some? then JStr(s.value) else JNull
  }

  /** The editor form has the parts of a document, laid out flat. */
  function FormJson(d: Document): Json {
    JObj(map["user" := JObj(map["id" := d.uid, "name" := d.uname]),
             "entities" := d.entities, "areas" := d.areas, "domains" := d.domains,
             "token_creation" := d.token,
             "dashboards" := JObj(map["default" := d.default, "allowed" := d.allowed])])
  }

  function FormOf(p: UserPolicy): Document {
    Document(JsonOf(p.matchUserId), JsonOf(p.matchUserName),
             JList(Merged(p.control.entities, p.read.entities)),
             JList(Merged(p.control.areas, p.read.areas)),
             JList(Merged(p.control.domains, p.read.domains)),
             JBool(p.tokenCreation), JsonOf(p.defaultDashboard), JList(Strings(Sorted(p.allowedDashboards))))
  }

  function ToEditor(p: UserPolicy): Json {
    FormJson(FormOf(p))
  }

  // ---- editor -> document ----

  /** Reads a payload as a form; `None` when a part that is not falsy is not a mapping. */
  function ReadForm(payload: Json): Option<Document> {
    if !payload.JObj? then None
    else
      var user := Or(Get(payload.fields, "user"), JObj(map[]));
      var dash := Or(Get(payload.fields, "dashboards"), JObj(map[]));
      if !user.JObj? || !dash.JObj? then None
      else
        Some(Document(
          Get(user.fields, "id"), Get(user.fields, "name"),
          Get(payload.fields, "entities"), Get(payload.fields, "areas"), Get(payload.fields, "domains"),
          Get(payload.fields, "token_creation"),
          Get(dash.fields, "default"), Get(dash.fields, "allowed")))
  }

  predicate IsAccess(j: Json) {
    j == JStr("read") || j == JStr("control")
  }

  function EditRule(item: Json): Option<Json> {
    if !item.JObj? || "id" !in item.fields then None
    else
      var access := GetOr(item.fields, "access", JStr("read"));
      if IsAccess(access) then Some(EntryOf(item.fields["id"], access)) else None
  }

  predicate Editable(items: seq<Json>) {
    forall it | it in items :: EditRule(it).Some?
  }

  function EditRules(items: seq<Json>): (r: seq<Json>)
    requires Editable(items)
    ensures |r| == |items|
  {
    seq(|items|, i requires 0 <= i < |items| && items[i] in items => EditRule(items[i]).value)
  }

  /** A rule list as it goes into the document, `JNull` when it is left out; iterating
      anything but a list raises, or meets an element that is not a rule. */
  function RulesPart(items: Json): Option<Json> {
    if !Truthy(items) then Some(JNull)
    else if items.JList? && Editable(items.items) then Some(JList(EditRules(items.items)))
    else None
  }

  /** Iterating a string gives its characters, iterating a mapping its keys. */
  function Iterated(j: Json): Option<seq<Json>> {
    if !Truthy(j) then Some([])
    else
      match j
      case JList(items) => Some(items)
      case JStr(s) => Some(seq(|s|, i requires 0 <= i < |s| => JStr([s[i]])))
      case JObj(fields) => Some(Strings(Sorted(fields.Keys)))
      case _ => None
  }

  function IsString(): Json -> bool {
    (d: Json) => d.JStr?
  }

  function IfTruthy(j: Json, otherwise: Json): Json {
    if Truthy(j) then j else otherwise
  }

  /** The document made of a form; parts that are falsy are left out, and an id hides a name. */
  function Edited(form: Document): Option<Document> {
    var entities, areas, domains := RulesPart(form.entities), RulesPart(form.areas), RulesPart(form.domains);
    var allowed := Iterated(form.allowed);
    if entities.None? || areas.None? || domains.None? || allowed.None? then None
    else
      Some(Document(
        IfTruthy(form.uid, JNull), if Truthy(form.uid) then JNull else IfTruthy(form.uname, JNull),
        entities.value, areas.value, domains.value,
        IfTruthy(form.token, JBool(false)), IfTruthy(form.default, JNull),
        JList(Keep(allowed.value, IsString()))))
  }

  /** Leaves out a part that has its default value. */
  function PutUnless(d: Fields, key: string, value: Json, default: Json): Fields {
    if value == default then d else d[key := value]
  }

  function UserJson(d: Document): Fields {
    PutUnless(PutUnless(map[], "id", d.uid, JNull), "name", d.uname, JNull)
  }

  function AllowJson(d: Document): Fields {
    PutUnless(PutUnless(PutUnless(PutUnless(map[],
      "entities", d.entities, JNull), "areas", d.areas, JNull), "domains", d.domains, JNull),
      "token_creation", d.token, JBool(false))
  }

  function DashboardsJson(d: Document): Fields {
    PutUnless(PutUnless(map[], "default", d.default, JNull), "allowed", d.allowed, JList([]))
  }

  function DocJson(d: Document): Json {
    var whole := map["user" := JObj(UserJson(d)), "allow" := JObj(AllowJson(d))];
    JObj(PutUnless(whole, "dashboards", JObj(DashboardsJson(d)), JObj(map[])))
  }

  /** `editor_to_mapping`; `None` when it raises. */
  function ToMapping(payload: Json): Option<Json> {
    var form := ReadForm(payload);
    if form.None? then None
    else
      var d := Edited(form.value);
      if d.None? then None else Some(DocJson(d.value))
  }

  method EditorRules(items: Json) returns (r: Option<seq<Json>>)
    ensures r.Some? <==> RulesPart(items).Some?
    ensures r.Some? ==> RulesPart(items).value == if r.value == [] then JNull else JList(r.value)
  {
    if !Truthy(items) { return Some([]); }
    if !items.JList? { return None; }
    var out := [];
    for i := 0 to |items.items|
      invariant |out| == i
      invariant forall k :: 0 <= k < i ==> EditRule(items.items[k]) == Some(out[k])
    {
      var entry := EditRule(items.items[i]);
      if entry.None? {
        assert items.items[i] in items.items;
        return None;
      }
      out := out + [entry.value];
    }
    assert Editable(items.items);
    assert out == EditRules(items.items);
    return Some(out);
  }

  method EditorUser(f: Document) returns (user: Fields)
    ensures Edited(f).Some? ==> user == UserJson(Edited(f).value)
  {
    user := map[];
    if Truthy(f.uid) {
      user := user["id" := f.uid];
    } else if Truthy(f.uname) {
      user := user["name" := f.uname];
    }
  }

  method EditorAllow(f: Document) returns (r: Option<Fields>)
    ensures r.Some? <==> RulesPart(f.entities).Some? && RulesPart(f.areas).Some? && RulesPart(f.domains).Some?
    ensures r.Some? && Edited(f).Some? ==> r.value == AllowJson(Edited(f).value)
  {
    var allow: Fields := map[];
    var entities := EditorRules(f.entities);
    if entities.None? { return None; }
    if entities.value != [] { allow := allow["entities" := JList(entities.value)]; }
    var areas := EditorRules(f.areas);
    if areas.None? { return None; }
    if areas.value != [] { allow := allow["areas" := JList(areas.value)]; }
    var domains := EditorRules(f.domains);
    if domains.None? { return None; }
    if domains.value != [] { allow := allow["domains" := JList(domains.value)]; }
    if Truthy(f.token) { allow := allow["token_creation" := f.token]; }
    return Some(allow);
  }

  method EditorDashboards(f: Document) returns (r: Option<Fields>)
    ensures r.None? <==> Iterated(f.allowed).None?
    ensures r.Some? && Edited(f).Some? ==> r.value == DashboardsJson(Edited(f).value)
  {
    var dashboards: Fields := map[];
    if Truthy(f.default) { dashboards := dashboards["default" := f.default]; }
    var listed := Iterated(f.allowed);
    if listed.None? { return None; }
    var allowed := Keep(listed.value, IsString());
    if allowed != [] { dashboards := dashboards["allowed" := JList(allowed)]; }
    return Some(dashboards);
  }

  lemma EditedExists(f: Document)
    ensures Edited(f).Some? <==>
      RulesPart(f.entities).Some? && RulesPart(f.areas).Some? && RulesPart(f.domains).Some? && Iterated(f.allowed).Some?
  {}

  method EditorToMapping(payload: Json) returns (r: Option<Json>)
    ensures r == ToMapping(payload)
  {
    var form := ReadForm(payload);
    if form.None? { return None; }
    var user := EditorUser(form.value);
    var allow := EditorAllow(form.value);
    if allow.None? { return None; }
    var dashboards := EditorDashboards(form.value);
    EditedExists(form.value);
    if dashboards.None? { return None; }
    var mapping := map["user" := JObj(user), "allow" := JObj(allow.value)];
    if dashboards.value != map[] { mapping := mapping["dashboards" := JObj(dashboards.value)]; }
    return Some(JObj(mapping));
  }

  // ---- the two JSON layouts lose nothing ----

  lemma UserRead(d: Document)
    ensures var u := UserJson(d); Get(u, "id") == d.uid && Get(u, "name") == d.uname && u.Keys <= {"id", "name"}
  {}

  lemma AllowRead(d: Document)
    ensures var a := AllowJson(d);
      Get(a, "entities") == d.entities && Get(a, "areas") == d.areas && Get(a, "domains") == d.domains &&
      GetOr(a, "token_creation", JBool(false)) == d.token &&
      a.Keys <= {"entities", "areas", "domains", "token_creation"}
  {}

  lemma DashboardsRead(d: Document)
    ensures var h := DashboardsJson(d);
      Get(h, "default") == d.default && GetOr(h, "allowed", JList([])) == d.allowed && h.Keys <= {"default", "allowed"}
  {}

  /** Writing a document and taking it apart again gives its parts back. */
  lemma DocumentRoundTrip(d: Document)
    ensures DocumentOf(DocJson(d)) == Some(d)
  {
    UserRead(d);
    AllowRead(d);
    DashboardsRead(d);
    var root := DocJson(d).fields;
    assert Get(root, "user") == JObj(UserJson(d)) && GetOr(root, "allow", JObj(map[])) == JObj(AllowJson(d));
    assert GetOr(root, "dashboards", JObj(map[])) == JObj(DashboardsJson(d));
    assert root.Keys <= {"user", "allow", "dashboards"};
  }

  lemma FormRoundTrip(d: Document)
    ensures ReadForm(FormJson(d)) == Some(d)
  {
    var user, dash := map["id" := d.uid, "name" := d.uname], map["default" := d.default, "allowed" := d.allowed];
    assert "id" in user && "default" in dash;
    assert Truthy(JObj(user)) && Truthy(JObj(dash));
  }

  // ---- the form, as the payload spells it ----

  /** A payload is readable unless it is no object, or has a user or dashboards that are
      neither falsy nor an object; and its parts are where they are expected. */
  lemma FormExactly(payload: Json, kind: RuleKind)
    ensures ReadForm(payload).Some? <==>
      payload.JObj? && (Truthy(Part(payload, "user")) ==> Part(payload, "user").JObj?) &&
      (Truthy(Part(payload, "dashboards")) ==> Part(payload, "dashboards").JObj?)
    ensures ReadForm(payload).Some? ==>
      var form := ReadForm(payload).value;
      form.Rules(kind) == Part(payload, KindKey(kind)) && form.token == Part(payload, "token_creation") &&
      form.uid == Part(Part(payload, "user"), "id") && form.uname == Part(Part(payload, "user"), "name") &&
      form.default == Part(Part(payload, "dashboards"), "default") &&
      form.allowed == Part(Part(payload, "dashboards"), "allowed")
  {}

  /** Going through the value gives this string: an element of a list, a character of a
      string, a key of an object. */
  predicate Lists(j: Json, x: string) {
    || (j.JList? && JStr(x) in j.items)
    || (j.JStr? && |x| == 1 && x[0] in j.s)
    || (j.JObj? && x in j.fields)
  }

  lemma IteratedExactly(j: Json, x: string)
    ensures Iterated(j).Some? <==> !Truthy(j) || j.JList? || j.JStr? || j.JObj?
    ensures Iterated(j).Some? ==> (JStr(x) in Iterated(j).value <==> Lists(j, x))
  {
    match j
    case JStr(s) =>
      var chars := seq(|s|, i requires 0 <= i < |s| => JStr([s[i]]));
      if |x| == 1 && x[0] in s {
        var i :| 0 <= i < |s| && s[i] == x[0];
        assert chars[i] == JStr(x);
      }
    case JObj(fields) =>
      var keys := Sorted(fields.Keys);
      if x in fields {
        var i :| 0 <= i < |keys| && keys[i] == x;
        assert Strings(keys)[i] == JStr(x);
      }
    case _ =>
  }

  /** The entries of one list: those with control first, then those that only read, each in
      increasing order. */
  predicate RightEntries(control: set<string>, read: set<string>, items: Json) {
    && items.JList? && |items.items| == |control| + |read - control|
    && (forall i | 0 <= i < |control| :: IsEntry(items.items[i], control, "control"))
    && (forall i | |control| <= i < |items.items| :: IsEntry(items.items[i], read - control, "read"))
    && forall i | 0 <= i < |items.items| - 1 && i + 1 != |control| ::
         StrLe(items.items[i].fields["id"].s, items.items[i + 1].fields["id"].s) &&
         items.items[i] != items.items[i + 1]
  }

  predicate IsEntry(item: Json, ids: set<string>, access: string) {
    && item.JObj? && item.fields.Keys == {"id", "access"} && item.fields["access"] == JStr(access)
    && item.fields["id"].JStr? && item.fields["id"].s in ids
  }

  lemma EntryIsEntry(id: string, control: bool, ids: set<string>)
    requires id in ids
    ensures IsEntry(EntryOf(JStr(id), AccessOf(control)), ids, if control then "control" else "read")
    ensures EntryOf(JStr(id), AccessOf(control)).fields["id"] == JStr(id)
  {}

  /** The id of each entry. */
  function MergedId(control: set<string>, read: set<string>, i: nat): string
    requires i < |control| + |read - control|
  {
    if i < |control| then Sorted(control)[i] else Sorted(read - control)[i - |control|]
  }

  lemma EntriesAt(ids: set<string>, control: bool, i: nat)
    requires i < |ids|
    ensures |Entries(Sorted(ids), control)| == |ids|
    ensures Entries(Sorted(ids), control)[i] == EntryOf(JStr(Sorted(ids)[i]), AccessOf(control))
    ensures Sorted(ids)[i] in ids
  {}

  lemma MergedAt(control: set<string>, read: set<string>, i: nat)
    requires i < |control| + |read - control|
    ensures |Merged(control, read)| == |control| + |read - control|
    ensures Merged(control, read)[i] == EntryOf(JStr(MergedId(control, read, i)), AccessOf(i < |control|))
    ensures MergedId(control, read, i) in if i < |control| then control else read - control
  {
    if i < |control| {
      EntriesAt(control, true, i);
    } else {
      EntriesAt(read - control, false, i - |control|);
    }
  }

  lemma MergedIncreases(control: set<string>, read: set<string>, i: nat)
    requires i + 1 < |control| + |read - control| && i + 1 != |control|
    ensures StrLe(MergedId(control, read, i), MergedId(control, read, i + 1))
    ensures MergedId(control, read, i) != MergedId(control, read, i + 1)
  {
    SortedIncreasing(control);
    SortedIncreasing(read - control);
  }

  lemma MergedExactly(control: set<string>, read: set<string>)
    ensures RightEntries(control, read, JList(Merged(control, read)))
  {
    var m := Merged(control, read);
    forall i | 0 <= i < |m|
      ensures i < |control| ==> IsEntry(m[i], control, "control")
      ensures i >= |control| ==> IsEntry(m[i], read - control, "read")
      ensures m[i].JObj? && "id" in m[i].fields && m[i].fields["id"] == JStr(MergedId(control, read, i))
    {
      MergedAt(control, read, i);
      EntryIsEntry(MergedId(control, read, i), i < |control|, if i < |control| then control else read - control);
    }
    forall i | 0 <= i < |m| - 1 && i + 1 != |control|
      ensures StrLe(MergedId(control, read, i), MergedId(control, read, i + 1))
      ensures MergedId(control, read, i) != MergedId(control, read, i + 1)
    {
      MergedIncreases(control, read, i);
    }
  }

  /** The editor form of a policy, part by part. */
  lemma ToEditorExactly(p: UserPolicy, kind: RuleKind)
    ensures RightEntries(p.control.Of(kind), p.read.Of(kind), Part(ToEditor(p), KindKey(kind)))
    ensures Part(Part(ToEditor(p), "user"), "id") == JsonOf(p.matchUserId)
    ensures Part(Part(ToEditor(p), "user"), "name") == JsonOf(p.matchUserName)
    ensures Part(ToEditor(p), "token_creation") == JBool(p.tokenCreation)
    ensures Part(Part(ToEditor(p), "dashboards"), "default") == JsonOf(p.defaultDashboard)
    ensures Part(Part(ToEditor(p), "dashboards"), "allowed") == JList(Strings(Sorted(p.allowedDashboards)))
  {
    MergedExactly(p.control.Of(kind), p.read.Of(kind));
    FormRoundTrip(FormOf(p));
    FormExactly(ToEditor(p), kind);
  }
}
