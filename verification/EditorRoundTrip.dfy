/** Sending a policy through the editor and back: what it means is kept. */
module EditorRoundTrips {
  import opened Collections
  import opened JsonValues
  import opened Policies
  import opened Evaluator
  import opened PolicyStores
  import opened PolicyEditor

  /** The ids a parsed policy holds have the shape the parser demands. */
  lemma ParsedIds(d: Document, sourceFile: string, kind: RuleKind, control: bool, id: string)
    requires WellTyped(d)
    requires id in IdsAt(RulesOf(d.Rules(kind), kind).value, control)
    ensures WellFormedId(id, kind)
  {
    var items := d.Rules(kind);
    var rules := RulesOf(items, kind).value;
    var i :| 0 <= i < |rules| && rules[i].id == id;
    assert RuleOf(items.items[i], kind) == Some(rules[i]);
  }

  lemma EntryReadsBack(id: string, control: bool, kind: RuleKind)
    ensures EditRule(EntryOf(JStr(id), AccessOf(control))) == Some(EntryOf(JStr(id), AccessOf(control)))
    ensures WellFormedId(id, kind) ==> RuleOf(EntryOf(JStr(id), AccessOf(control)), kind) == Some(Rule(id, control))
  {
    var entry := EntryOf(JStr(id), AccessOf(control));
    assert Get(entry.fields, "id") == JStr(id) && GetOr(entry.fields, "access", JStr("read")) == AccessOf(control);
    assert AccessOf(true) != AccessOf(false) by { assert |"read"| == 4 && |"control"| == 7; }
  }

  /** The rules a merged list stands for. */
  function MergedRules(control: set<string>, read: set<string>): (r: seq<Rule>)
    ensures |r| == |Merged(control, read)|
  {
    var cs, rs := Sorted(control), Sorted(read - control);
    seq(|cs|, i requires 0 <= i < |cs| => Rule(cs[i], true)) + seq(|rs|, i requires 0 <= i < |rs| => Rule(rs[i], false))
  }

  lemma MergedEntry(control: set<string>, read: set<string>, i: nat)
    requires i < |Merged(control, read)|
    ensures var r := MergedRules(control, read)[i];
      Merged(control, read)[i] == EntryOf(JStr(r.id), AccessOf(r.control)) && r.id in control + read
  {
    var cs, rs := Sorted(control), Sorted(read - control);
    if i < |cs| { assert cs[i] in cs; } else { assert rs[i - |cs|] in rs; }
  }

  lemma MergedControl(control: set<string>, read: set<string>)
    ensures IdsAt(MergedRules(control, read), true) == control
  {
    var cs, rules := Sorted(control), MergedRules(control, read);
    forall id
      ensures id in IdsAt(rules, true) <==> id in cs
    {
      if id in cs {
        var i :| 0 <= i < |cs| && cs[i] == id;
        assert rules[i] == Rule(id, true);
      }
    }
  }

  lemma MergedRead(control: set<string>, read: set<string>)
    ensures IdsAt(MergedRules(control, read), false) == read - control
  {
    var cs, rs, rules := Sorted(control), Sorted(read - control), MergedRules(control, read);
    forall id
      ensures id in IdsAt(rules, false) <==> id in rs
    {
      if id in rs {
        var i :| 0 <= i < |rs| && rs[i] == id;
        assert rules[|cs| + i] == Rule(id, false);
      }
    }
  }

  /** A merged list goes through the editor as it is. */
  lemma MergedEdits(control: set<string>, read: set<string>)
    ensures var m := Merged(control, read);
      RulesPart(JList(m)) == Some(if m == [] then JNull else JList(m))
  {
    var m := Merged(control, read);
    forall i | 0 <= i < |m|
      ensures EditRule(m[i]) == Some(m[i])
    {
      MergedEntry(control, read, i);
      EntryReadsBack(MergedRules(control, read)[i].id, MergedRules(control, read)[i].control, EntityRule);
    }
    assert Editable(m);
    assert EditRules(m) == m;
  }

  lemma MergedParses(control: set<string>, read: set<string>, kind: RuleKind)
    requires forall id :: id in control + read ==> WellFormedId(id, kind)
    ensures RulesOf(JList(Merged(control, read)), kind) == Some(MergedRules(control, read))
  {
    var m, rules := Merged(control, read), MergedRules(control, read);
    forall i | 0 <= i < |m|
      ensures RuleOf(m[i], kind) == Some(rules[i])
    {
      MergedEntry(control, read, i);
      EntryReadsBack(rules[i].id, rules[i].control, kind);
    }
    assert RulesOf(JList(m), kind).value == rules;
  }

  /** One rule list, through the editor and the parser: control is kept, read loses what
      control already grants. */
  lemma RulesRoundTrip(control: set<string>, read: set<string>, kind: RuleKind)
    requires forall id :: id in control + read ==> WellFormedId(id, kind)
    ensures var part := RulesPart(JList(Merged(control, read)));
      part.Some? && RulesOf(part.value, kind).Some? &&
      IdsAt(RulesOf(part.value, kind).value, true) == control &&
      IdsAt(RulesOf(part.value, kind).value, false) == read - control
  {
    MergedEdits(control, read);
    MergedParses(control, read, kind);
    MergedControl(control, read);
    MergedRead(control, read);
    if Merged(control, read) == [] {
      assert MergedRules(control, read) == [];
    }
  }

  lemma StringsMembers(ids: set<string>)
    ensures StringsOf(Strings(Sorted(ids))) == ids
  {
    var list := Strings(Sorted(ids));
    forall x
      ensures x in StringsOf(list) <==> x in ids
    {
      if x in ids {
        var i :| 0 <= i < |Sorted(ids)| && Sorted(ids)[i] == x;
        assert list[i] == JStr(x);
      }
    }
  }

  lemma StringsIterated(list: seq<Json>)
    requires forall d :: d in list ==> d.JStr?
    ensures Iterated(JList(list)) == Some(list) && Keep(list, IsString()) == list
  {
    KeepAll(list, IsString());
  }

  lemma StringsRoundTrip(ids: set<string>)
    ensures var list := Iterated(JList(Strings(Sorted(ids))));
      list.Some? && StringList(JList(Keep(list.value, IsString()))) && StringsOf(Keep(list.value, IsString())) == ids
  {
    StringsMembers(ids);
    StringsIterated(Strings(Sorted(ids)));
  }

  function Unless(s: Option<string>, drop: bool): Option<string> {
    if NonEmpty(s) && !drop then s else None
  }

  function Minus(a: RuleSet, b: RuleSet): RuleSet {
    RuleSet(a.entities - b.entities, a.domains - b.domains, a.areas - b.areas)
  }

  /** The normal form: an empty matcher or default is none, an id hides a name, and read
      holds only what control does not. */
  function Normal(p: UserPolicy): UserPolicy {
    p.(matchUserId := Unless(p.matchUserId, false),
       matchUserName := Unless(p.matchUserName, NonEmpty(p.matchUserId)),
       read := Minus(p.read, p.control),
       defaultDashboard := Unless(p.defaultDashboard, false))
  }

  /** A policy the parser may have produced. */
  ghost predicate Parsed(p: UserPolicy) {
    exists root :: PolicyOf(root, p.sourceFile) == Some(p)
  }

  lemma ParsedIsWellFormed(p: UserPolicy, kind: RuleKind)
    requires Parsed(p)
    ensures OneMatcher(p)
    ensures forall id :: id in p.control.Of(kind) + p.read.Of(kind) ==> WellFormedId(id, kind)
  {
    var root :| PolicyOf(root, p.sourceFile) == Some(p);
    var d := DocumentOf(root).value;
    forall id | id in p.control.Of(kind) + p.read.Of(kind)
      ensures WellFormedId(id, kind)
    {
      ParsedIds(d, p.sourceFile, kind, id in p.control.Of(kind), id);
    }
  }

  /** A rule list of the document grants at both levels what the policy grants. */
  ghost predicate Kept(p: UserPolicy, items: Json, kind: RuleKind) {
    && RulesOf(items, kind).Some?
    && IdsAt(RulesOf(items, kind).value, true) == p.control.Of(kind)
    && IdsAt(RulesOf(items, kind).value, false) == p.read.Of(kind) - p.control.Of(kind)
  }

  lemma KindEdits(p: UserPolicy, kind: RuleKind)
    requires Parsed(p)
    ensures var part := RulesPart(FormOf(p).Rules(kind)); part.Some? && Kept(p, part.value, kind)
  {
    ParsedIsWellFormed(p, kind);
    RulesRoundTrip(p.control.Of(kind), p.read.Of(kind), kind);
  }

  lemma EditedRules(f: Document)
    requires Iterated(f.allowed).Some?
    requires RulesPart(f.entities).Some? && RulesPart(f.areas).Some? && RulesPart(f.domains).Some?
    ensures Edited(f).Some?
    ensures forall kind :: RulesPart(f.Rules(kind)) == Some(Edited(f).value.Rules(kind))
  {}

  ghost predicate AllKept(p: UserPolicy, d: Document) {
    forall kind :: Kept(p, d.Rules(kind), kind)
  }

  lemma FormEdits(p: UserPolicy, f: Document)
    requires Parsed(p) && f == FormOf(p)
    ensures Edited(f).Some? && AllKept(p, Edited(f).value)
  {
    KindEdits(p, EntityRule);
    KindEdits(p, AreaRule);
    KindEdits(p, DomainRule);
    StringsRoundTrip(p.allowedDashboards);
    EditedRules(f);
    forall kind
      ensures Kept(p, Edited(f).value.Rules(kind), kind)
    {
      KindEdits(p, kind);
    }
  }

  /** The parts beside the rule lists say what the policy says. */
  predicate OthersKept(q: UserPolicy, d: Document) {
    && d.uid == JsonOf(q.matchUserId) && d.uname == JsonOf(q.matchUserName)
    && d.token == JBool(q.tokenCreation) && d.default == JsonOf(q.defaultDashboard)
    && StringList(d.allowed) && StringsOf(d.allowed.items) == q.allowedDashboards
  }

  lemma MatchersEdited(p: UserPolicy, f: Document, d: Document)
    requires OneMatcher(p) && f == FormOf(p) && Edited(f) == Some(d)
    ensures d.uid == JsonOf(Normal(p).matchUserId) && d.uname == JsonOf(Normal(p).matchUserName)
    ensures d.token == JBool(p.tokenCreation) && d.default == JsonOf(Normal(p).defaultDashboard)
  {}

  lemma OthersEdited(p: UserPolicy, f: Document, d: Document)
    requires OneMatcher(p) && f == FormOf(p) && Edited(f) == Some(d)
    ensures OthersKept(Normal(p), d)
  {
    MatchersEdited(p, f, d);
    StringsRoundTrip(p.allowedDashboards);
  }

  lemma NormalShape(p: UserPolicy)
    requires OneMatcher(p)
    ensures OneMatcher(Normal(p)) && Normal(p).read == Minus(Normal(p).read, Normal(p).control)
  {}

  /** A document with the parts of `q` parses to `q`. */
  lemma ParsesTo(d: Document, q: UserPolicy)
    requires OneMatcher(q) && q.read == Minus(q.read, q.control)
    requires AllKept(q, d) && OthersKept(q, d)
    ensures WellTyped(d) && PolicyFrom(d, q.sourceFile) == q
  {
    assert Kept(q, d.Rules(EntityRule), EntityRule);
    assert Kept(q, d.Rules(AreaRule), AreaRule);
    assert Kept(q, d.Rules(DomainRule), DomainRule);
    assert RuleSetAt(d, true) == q.control;
    assert RuleSetAt(d, false) == q.read;
  }

  lemma KeptNormal(p: UserPolicy, d: Document)
    requires AllKept(p, d)
    ensures AllKept(Normal(p), d)
  {
    forall kind
      ensures Kept(Normal(p), d.Rules(kind), kind)
    {
      assert Kept(p, d.Rules(kind), kind);
    }
  }

  lemma FormMaps(f: Document, d: Document, sourceFile: string)
    requires Edited(f) == Some(d) && WellTyped(d)
    ensures ToMapping(FormJson(f)) == Some(DocJson(d))
    ensures PolicyOf(DocJson(d), sourceFile) == Some(PolicyFrom(d, sourceFile))
  {
    FormRoundTrip(f);
    DocumentRoundTrip(d);
  }

  lemma FormParses(p: UserPolicy, f: Document, d: Document)
    requires Parsed(p) && f == FormOf(p) && Edited(f) == Some(d)
    ensures WellTyped(d) && PolicyFrom(d, p.sourceFile) == Normal(p)
  {
    FormEdits(p, f);
    ParsedIsWellFormed(p, EntityRule);
    OthersEdited(p, f, d);
    KeptNormal(p, d);
    NormalShape(p);
    ParsesTo(d, Normal(p));
  }

  /** Turning a parsed policy into its editor form, that into a document, and parsing the
      document always succeeds and gives the policy in normal form. */
  lemma EditorRoundTrip(p: UserPolicy)
    requires Parsed(p)
    ensures ToMapping(ToEditor(p)).Some?
    ensures PolicyOf(ToMapping(ToEditor(p)).value, p.sourceFile) == Some(Normal(p))
  {
    var f := FormOf(p);
    FormEdits(p, f);
    var d := Edited(f).value;
    FormParses(p, f, d);
    FormMaps(f, d, p.sourceFile);
  }

  /** A second trip changes nothing more. */
  lemma SecondTripIsIdentity(p: UserPolicy)
    requires Parsed(p)
    ensures Normal(Normal(p)) == Normal(p) && ToMapping(ToEditor(Normal(p))).Some?
    ensures PolicyOf(ToMapping(ToEditor(Normal(p))).value, p.sourceFile) == Some(Normal(p))
  {
    EditorRoundTrip(p);
    NormalIsParsed(p, ToMapping(ToEditor(p)).value);
    NormalTwice(p);
    EditorRoundTrip(Normal(p));
  }

  lemma NormalIsParsed(p: UserPolicy, root: Json)
    requires PolicyOf(root, p.sourceFile) == Some(Normal(p))
    ensures Parsed(Normal(p))
  {}

  lemma NormalTwice(p: UserPolicy)
    ensures Normal(Normal(p)) == Normal(p)
  {}

  /** The normal form grants the same: every entity, at every instant and for every registry,
      every dashboard, and the token commands. */
  lemma NormalGrantsTheSame(p: UserPolicy)
    ensures forall v, e :: AllowedControl(Normal(p), v, e) == AllowedControl(p, v, e)
    ensures forall v, e :: AllowedRead(Normal(p), v, e) == AllowedRead(p, v, e)
    ensures forall v :: Enumerable(Normal(p), v) == Enumerable(p, v)
    ensures Normal(p).Dashboards() == p.Dashboards() && Normal(p).HasDefault() == p.HasDefault()
    ensures Normal(p).tokenCreation == p.tokenCreation
  {
    var q := Normal(p);
    assert q.read.domains + q.control.domains == p.read.domains + p.control.domains;
    assert q.read.areas + q.control.areas == p.read.areas + p.control.areas;
    assert q.read.entities + q.control.entities == p.read.entities + p.control.entities;
  }

  /** It matches the same identities unless the document set an empty user id beside the
      name: `matches` compares that id, the editor drops it and leaves the name. */
  lemma NormalMatchesTheSame(p: UserPolicy)
    requires OneMatcher(p)
    ensures (forall i :: Normal(p).Matches(i) == p.Matches(i)) <==> p.matchUserId != Some("")
  {
    if p.matchUserId == Some("") {
      var i := Identity("x", p.matchUserName.value, false, false);
      assert Normal(p).Matches(i) && !p.Matches(i);
    }
  }
}
