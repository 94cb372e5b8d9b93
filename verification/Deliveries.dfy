/** What the running gateway delivers follows the policies in force, as what it writes
    upstream does. */
module GatewayDeliveries {
  import opened Collections
  import opened JsonValues
  import opened Policies
  import opened PolicyStores
  import opened Connections
  import opened GatewaySystem
  import Correlation
  import Confidentiality

  /** The next message of HA is answered with nothing, or with one frame that is `clean`. */
  ghost predicate DeliveredClean(before: ConnState, after: ConnState, clean: Fields -> bool) {
    after.down == before.down ||
    (before.open && exists out: Fields :: after.down == before.down + [Relayed(JObj(out))] && clean(out))
  }

  function CleanResultFor(p: UserPolicy, v: Registry.View, command: Commands.Command): Fields -> bool {
    (out: Fields) => Confidentiality.CleanResult(p, v, command, Get(out, "result"))
  }

  function CleanEventFor(p: UserPolicy, v: Registry.View, kind: SubKind): Fields -> bool {
    (out: Fields) => Confidentiality.CleanEvent(p, v, kind, Get(out, "event"))
  }

  /** What one message of HA is delivered as: an awaited successful result, and an event of a
      kept subscription, are clean under this policy and view. */
  ghost predicate CleanUnder(p: UserPolicy, v: Registry.View, g: Correlation.Ledger,
                             before: ConnState, after: ConnState, m: Json)
  {
    var result, event := Correlation.ResultKey(m), Correlation.EventKey(m);
    && (result.Some? && result.value in g.awaiting && Truthy(Get(m.fields, "success")) ==>
          DeliveredClean(before, after, CleanResultFor(p, v, Correlation.CommandFor(g, result.value))))
    && (event.Some? && Correlation.SubOn(g, event.value).Some? ==>
          DeliveredClean(before, after, CleanEventFor(p, v, Correlation.SubOn(g, event.value).value)))
  }

  lemma HaIsClean(p: UserPolicy, es: seq<Runs.Event>, v: Registry.View, m: Json)
    requires Runs.IdsOnce(es)
    ensures CleanUnder(p, v, Correlation.LedgerOf(p, es), Runs.Run(p, es), HaStep(p, v, Runs.Run(p, es), m), m)
  {
    var g, s := Correlation.LedgerOf(p, es), Runs.Run(p, es);
    var result, event := Correlation.ResultKey(m), Correlation.EventKey(m);
    if result.Some? && result.value in g.awaiting && Truthy(Get(m.fields, "success")) {
      ResultIsClean(p, es, v, result.value, m);
    }
    if event.Some? && Correlation.SubOn(g, event.value).Some? {
      EventIsClean(p, es, v, event.value, m);
    }
  }

  lemma ResultIsClean(p: UserPolicy, es: seq<Runs.Event>, v: Registry.View, k: Key, m: Json)
    requires Runs.IdsOnce(es) && Correlation.ResultKey(m) == Some(k) && k in Correlation.LedgerOf(p, es).awaiting
    requires Truthy(Get(m.fields, "success"))
    ensures DeliveredClean(Runs.Run(p, es), HaStep(p, v, Runs.Run(p, es), m),
                           CleanResultFor(p, v, Correlation.CommandFor(Correlation.LedgerOf(p, es), k)))
  {
    Confidentiality.ResultsAreClean(p, es, v, k, m);
    var s, s' := Runs.Run(p, es), HaStep(p, v, Runs.Run(p, es), m);
    if s'.down != s.down {
      var out :| s'.down == s.down + [Relayed(JObj(out))] &&
        Confidentiality.CleanResult(p, v, Correlation.CommandFor(Correlation.LedgerOf(p, es), k), Get(out, "result"));
      assert CleanResultFor(p, v, Correlation.CommandFor(Correlation.LedgerOf(p, es), k))(out);
    }
  }

  lemma EventIsClean(p: UserPolicy, es: seq<Runs.Event>, v: Registry.View, k: Key, m: Json)
    requires Runs.IdsOnce(es) && Correlation.EventKey(m) == Some(k)
    requires Correlation.SubOn(Correlation.LedgerOf(p, es), k).Some?
    ensures DeliveredClean(Runs.Run(p, es), HaStep(p, v, Runs.Run(p, es), m),
                           CleanEventFor(p, v, Correlation.SubOn(Correlation.LedgerOf(p, es), k).value))
  {
    Confidentiality.EventsAreClean(p, es, v, k, m);
    var s, s' := Runs.Run(p, es), HaStep(p, v, Runs.Run(p, es), m);
    if s'.down != s.down {
      var out :| s'.down == s.down + [Relayed(JObj(out))] &&
        Confidentiality.CleanEvent(p, v, Correlation.SubOn(Correlation.LedgerOf(p, es), k).value, Get(out, "event"));
      assert CleanEventFor(p, v, Correlation.SubOn(Correlation.LedgerOf(p, es), k).value)(out);
    }
  }

  /** The other direction: after any orderly history, what HA says next reaches an open
      session's client only clean under the policy its user would be given at that instant. */
  lemma DeliveriesFollowPolicy(c: Config, now: real, fileExists: bool, rules: PolicyAdmin.State,
                               actions: seq<Action>, i: SessionId, m: Json)
    requires Good(rules.store) && OrderlyRun(c, Start(now, fileExists, rules), actions)
    requires i in After(c, Start(now, fileExists, rules), actions).sessions
    requires After(c, Start(now, fileExists, rules), actions).sessions[i].conn.open
    requires Runs.IdsOnce(Project(c, Start(now, fileExists, rules), actions, i))
    ensures var start := Start(now, fileExists, rules);
      var at := After(c, start, actions);
      var granted := Find(at.rules.store, at.sessions[i].identity);
      granted.Some? &&
      CleanUnder(granted.value, at.View(c.staleMax), Correlation.LedgerOf(granted.value, Project(c, start, actions, i)),
                 at.sessions[i].conn, SessionAfter(c, at, HaMessage(i, m), i).conn, m)
  {
    var start := Start(now, fileExists, rules);
    AlwaysCurrent(c, start, actions);
    SessionsAreRuns(c, now, fileExists, rules, actions, i);
    var at := After(c, start, actions);
    assert CurrentSession(at.rules, at.sessions[i]);
    HaIsClean(at.sessions[i].policy, Project(c, start, actions, i), at.View(c.staleMax), m);
  }
}
