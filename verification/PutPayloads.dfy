/** Which payloads a PUT accepts, read off the payload itself. */
module PutPayloads {
  import opened JsonValues
  import opened Policies
  import opened PolicyDocuments
  import opened PolicyEditor
  import opened PolicyAdmin

  predicate NothingOrObject(j: Json) {
    !Truthy(j) || j.JObj?
  }

  /** An id, if there is one, names the user alone; else a name does. */
  predicate NamesSomeone(user: Json) {
    if Truthy(Part(user, "id")) then Part(user, "id").JStr? else Filled(Part(user, "name"))
  }

  /** A rule as the editor sends it: other keys than `id` and `access` are let be. */
  predicate GoodRule(item: Json, kind: RuleKind) {
    && item.JObj? && "id" in item.fields && Filled(item.fields["id"])
    && (kind.EntityRule? ==> '.' in item.fields["id"].s)
    && (kind.DomainRule? ==> '.' !in item.fields["id"].s)
    && (ReadsOnly(item) || Controls(item))
  }

  predicate GoodRules(items: Json, kind: RuleKind) {
    Truthy(items) ==> items.JList? && forall it | it in items.items :: GoodRule(it, kind)
  }

  /** The dashboards: the default is a string, and the allowed ones can be gone through. */
  predicate GoodChoice(dash: Json) {
    && (Truthy(Part(dash, "default")) ==> Part(dash, "default").JStr?)
    && (Truthy(Part(dash, "allowed")) ==>
          Part(dash, "allowed").JList? || Part(dash, "allowed").JStr? || Part(dash, "allowed").JObj?)
  }

  predicate AcceptablePayload(payload: Json) {
    && payload.JObj?
    && NothingOrObject(Part(payload, "user")) && NothingOrObject(Part(payload, "dashboards"))
    && NamesSomeone(Part(payload, "user"))
    && GoodRules(Part(payload, "entities"), EntityRule)
    && GoodRules(Part(payload, "areas"), AreaRule)
    && GoodRules(Part(payload, "domains"), DomainRule)
    && (Truthy(Part(payload, "token_creation")) ==> Part(payload, "token_creation") == JBool(true))
    && GoodChoice(Part(payload, "dashboards"))
  }

  lemma EditedRule(item: Json, kind: RuleKind)
    ensures EditRule(item).Some? && RuleOf(EditRule(item).value, kind).Some? <==> GoodRule(item, kind)
  {
    assert |"read"| == 4 && |"control"| == 7;
    if EditRule(item).Some? {
      var access := GetOr(item.fields, "access", JStr("read"));
      var entry := EntryOf(item.fields["id"], access);
      assert Get(entry.fields, "id") == item.fields["id"] && entry.fields["access"] == access;
    }
  }

  lemma EditedList(items: Json, kind: RuleKind)
    ensures RulesPart(items).Some? && RulesOf(RulesPart(items).value, kind).Some? <==> GoodRules(items, kind)
  {
    if Truthy(items) && items.JList? {
      forall it
        ensures EditRule(it).Some? && RuleOf(EditRule(it).value, kind).Some? <==> GoodRule(it, kind)
      {
        EditedRule(it, kind);
      }
      if Editable(items.items) {
        var edited := EditRules(items.items);
        forall i | 0 <= i < |items.items|
          ensures RuleOf(edited[i], kind).Some? <==> GoodRule(items.items[i], kind)
        {
          assert items.items[i] in items.items && edited[i] == EditRule(items.items[i]).value;
        }
      }
    }
  }

  /** The parts of a form the parser will take, but for the rules. */
  lemma EditedTypes(form: Document)
    requires Edited(form).Some?
    ensures WellTyped(Edited(form).value) <==>
      && (if Truthy(form.uid) then form.uid.JStr? else Filled(form.uname))
      && (Truthy(form.token) ==> form.token == JBool(true)) && (Truthy(form.default) ==> form.default.JStr?)
      && RulesOf(RulesPart(form.entities).value, EntityRule).Some?
      && RulesOf(RulesPart(form.areas).value, AreaRule).Some?
      && RulesOf(RulesPart(form.domains).value, DomainRule).Some?
  {
    var d := Edited(form).value;
    assert StringList(d.allowed);
  }

  lemma FormParts(payload: Json)
    requires ReadForm(payload).Some?
    ensures var form := ReadForm(payload).value;
      form.entities == Part(payload, "entities") && form.areas == Part(payload, "areas") &&
      form.domains == Part(payload, "domains")
  {
    FormExactly(payload, EntityRule);
    FormExactly(payload, AreaRule);
    FormExactly(payload, DomainRule);
  }

  /** The editor and the parser take exactly these payloads, whatever the file is called. */
  lemma ValidatedExactly(payload: Json, fn: string)
    ensures Validated(payload, fn).Some? <==> AcceptablePayload(payload)
  {
    FormExactly(payload, EntityRule);
    if ReadForm(payload).Some? {
      var form := ReadForm(payload).value;
      FormParts(payload);
      EditedList(form.entities, EntityRule);
      EditedList(form.areas, AreaRule);
      EditedList(form.domains, DomainRule);
      EditedExists(form);
      IteratedExactly(form.allowed, "");
      if Edited(form).Some? {
        EditedTypes(form);
        DocumentRoundTrip(Edited(form).value);
      }
    }
  }

  /** A PUT is refused exactly for any other payload, and then changes nothing. */
  lemma RefusedExactly(s: State, key: string, payload: Json, alnum: AlNum)
    ensures PutResult(s, key, payload, alnum) == Refused <==> !AcceptablePayload(payload)
    ensures !AcceptablePayload(payload) ==> Put(s, key, payload, alnum) == s
  {
    ValidatedExactly(payload, FileFor(s.store, key, alnum));
  }
}
