/** Results and events find the right filter: what the session remembers about an id agrees
    with what was written upstream under that id, on every run that uses ids once. */
module Correlation {
  import opened Collections
  import opened JsonValues
  import opened Registry
  import opened Policies
  import opened Commands
  import opened Connections
  import opened Runs

  /** What HA knows of the session, read off the frames written to it: the command it got
      under each id, and the ids it has not answered yet. */
  datatype Ledger = Ledger(commands: map<Key, Fields>, awaiting: set<Key>)

  function Note(g: Ledger, frame: Json): Ledger {
    if frame.JObj? && HashKey(Get(frame.fields, "id")).Some? then
      var k := HashKey(Get(frame.fields, "id")).value;
      Ledger(g.commands[k := frame.fields], g.awaiting + {k})
    else g
  }

  /** The id of a result message. */
  function ResultKey(m: Json): Option<Key> {
    if m.JObj? && Get(m.fields, "type") == JStr("result") then HashKey(Get(m.fields, "id")) else None
  }

  function EventKey(m: Json): Option<Key> {
    if m.JObj? && Get(m.fields, "type") == JStr("event") then HashKey(Get(m.fields, "id")) else None
  }

  function LedgerStep(g: Ledger, before: ConnState, e: Event, after: ConnState): Ledger {
    match e
    case FromClient(_, _, _) => NoteNew(g, before.up, after.up)
    case FromHa(_, m) =>
      if before.open && ResultKey(m).Some? then g.(awaiting := g.awaiting - {ResultKey(m).value}) else g
    case Disconnected => g
  }

  function LedgerOf(p: UserPolicy, es: seq<Event>): Ledger {
    if es == [] then Ledger(map[], {})
    else
      var n := |es| - 1;
      LedgerStep(LedgerOf(p, es[..n]), Run(p, es[..n]), es[n], Run(p, es))
  }

  /** The command HA got under an id. */
  function CommandFor(g: Ledger, k: Key): Command {
    if k in g.commands && WellFormed(g.commands[k]) then CommandOf(g.commands[k]) else Unlisted
  }

  /** The filter that events on an id need. */
  function SubOn(g: Ledger, k: Key): Option<SubKind> {
    if k in g.commands then SubFor(CommandFor(g, k), g.commands[k]) else None
  }

  function UsedKeys(es: seq<Event>): set<Key> {
    set e | e in es && IsCommand(e) :: KeyOf(e)
  }

  function Lookup<V>(m: map<Key, V>, k: Key): Option<V> {
    if k in m then Some(m[k]) else None
  }

  ghost predicate CommandKnown(s: ConnState, g: Ledger, used: set<Key>, k: Key)
    requires k in g.commands
  {
    && k in used && WellFormed(g.commands[k])
    && Lookup(s.subs, k) == SubFor(CommandOf(g.commands[k]), g.commands[k])
  }

  ghost predicate ResultExpected(s: ConnState, g: Ledger, k: Key) {
    && k in g.commands && WellFormed(g.commands[k])
    && Lookup(s.pending, k) == TransformFor(CommandOf(g.commands[k]))
  }

  /** Each command still awaiting its result has in `pending` exactly the transform its type
      requires, each subscription has in `subs` exactly its kind, and `pending` holds
      nothing else. */
  ghost predicate Correlated(s: ConnState, g: Ledger, used: set<Key>) {
    && (forall k :: k in g.commands ==> CommandKnown(s, g, used, k))
    && (forall k :: k in g.awaiting ==> ResultExpected(s, g, k))
    && s.pending.Keys <= g.awaiting
    && s.subs.Keys <= used
  }

  lemma NewIsUnknown(s: ConnState, g: Ledger, used: set<Key>, k: Key)
    requires Correlated(s, g, used) && k !in used
    ensures k !in g.commands && k !in g.awaiting && k !in s.pending && k !in s.subs
  {
    forall j | j in g.commands
      ensures j in used
    {
      assert CommandKnown(s, g, used, j);
    }
    forall j | j in g.awaiting
      ensures j in g.commands
    {
      assert ResultExpected(s, g, j);
    }
  }

  lemma ForwardRegisters(s: ConnState, k: Key, id: Json, d: Decision)
    requires d.Forward? && k !in s.pending && k !in s.subs
    ensures var s' := Enact(s, k, id, d);
      && Lookup(s'.pending, k) == d.transform && Lookup(s'.subs, k) == d.sub
      && s'.pending.Keys <= s.pending.Keys + {k} && s'.subs.Keys <= s.subs.Keys + {k}
      && forall j :: j != k ==> Lookup(s'.pending, j) == Lookup(s.pending, j) && Lookup(s'.subs, j) == Lookup(s.subs, j)
  {}

  lemma ForwardStaysCorrelated(s: ConnState, g: Ledger, used: set<Key>, k: Key, id: Json, d: Decision)
    requires Correlated(s, g, used) && k !in used && HashKey(id) == Some(k)
    requires d.Forward? && WellFormed(d.frame) && Get(d.frame, "id") == id
    requires d.transform == TransformFor(CommandOf(d.frame)) && d.sub == SubFor(CommandOf(d.frame), d.frame)
    ensures Correlated(Enact(s, k, id, d), Note(g, JObj(d.frame)), used + {k})
  {
    NewIsUnknown(s, g, used, k);
    ForwardRegisters(s, k, id, d);
    assert Note(g, JObj(d.frame)) == Ledger(g.commands[k := d.frame], g.awaiting + {k});
    Extends(s, Enact(s, k, id, d), g, used, k, d.frame);
  }

  lemma Extends(s: ConnState, s': ConnState, g: Ledger, used: set<Key>, k: Key, frame: Fields)
    requires Correlated(s, g, used) && WellFormed(frame)
    requires Lookup(s'.pending, k) == TransformFor(CommandOf(frame)) &&
      Lookup(s'.subs, k) == SubFor(CommandOf(frame), frame)
    requires s'.pending.Keys <= s.pending.Keys + {k} && s'.subs.Keys <= s.subs.Keys + {k}
    requires forall j :: j != k ==> Lookup(s'.pending, j) == Lookup(s.pending, j)
    requires forall j :: j != k ==> Lookup(s'.subs, j) == Lookup(s.subs, j)
    ensures Correlated(s', Ledger(g.commands[k := frame], g.awaiting + {k}), used + {k})
  {
    var g' := Ledger(g.commands[k := frame], g.awaiting + {k});
    forall j | j in g'.commands
      ensures CommandKnown(s', g', used + {k}, j)
    {
      if j != k { assert CommandKnown(s, g, used, j); }
    }
    forall j | j in g'.awaiting
      ensures ResultExpected(s', g', j)
    {
      if j != k { assert ResultExpected(s, g, j); }
    }
  }

  lemma AnswerStaysCorrelated(s: ConnState, g: Ledger, used: set<Key>, k: Key, id: Json, d: Decision)
    requires Correlated(s, g, used) && k !in used && !d.Forward?
    ensures Correlated(Enact(s, k, id, d), g, used + {k})
  {
    var s' := Enact(s, k, id, d);
    forall j | j in g.commands
      ensures CommandKnown(s', g, used + {k}, j)
    {
      assert CommandKnown(s, g, used, j);
    }
    forall j | j in g.awaiting
      ensures ResultExpected(s', g, j)
    {
      assert ResultExpected(s, g, j);
    }
  }

  ghost predicate RegistersItsFilters(id: Json, d: Decision) {
    d.Forward? ==>
      && WellFormed(d.frame) && Get(d.frame, "id") == id
      && d.transform == TransformFor(CommandOf(d.frame)) && d.sub == SubFor(CommandOf(d.frame), d.frame)
  }

  function NoteNew(g: Ledger, before: seq<Json>, after: seq<Json>): Ledger {
    if |after| > |before| then Note(g, after[|after| - 1]) else g
  }

  lemma EnactStaysCorrelated(s: ConnState, g: Ledger, used: set<Key>, k: Key, id: Json, d: Decision)
    requires Correlated(s, g, used) && k !in used && HashKey(id) == Some(k)
    requires RegistersItsFilters(id, d)
    ensures Correlated(Enact(s, k, id, d), NoteNew(g, s.up, Enact(s, k, id, d).up), used + {k})
  {
    if d.Forward? {
      ForwardStaysCorrelated(s, g, used, k, id, d);
    } else {
      AnswerStaysCorrelated(s, g, used, k, id, d);
    }
  }

  lemma CommandRegistersItsFilters(p: UserPolicy, v: View, tripped: bool, msg: Fields)
    requires WellFormed(msg)
    ensures RegistersItsFilters(Get(msg, "id"), Decide(p, v, tripped, msg))
  {
    if Decide(p, v, tripped, msg).Forward? {
      ForwardIsSafe(p, v, tripped, msg);
    }
  }

  lemma CommandStaysCorrelated(p: UserPolicy, s: ConnState, g: Ledger, used: set<Key>, e: Event)
    requires Correlated(s, g, used) && s.open && IsCommand(e) && KeyOf(e) !in used
    ensures Correlated(Step(p, s, e), LedgerStep(g, s, e, Step(p, s, e)), used + {KeyOf(e)})
  {
    var msg := e.msg.fields;
    CommandRegistersItsFilters(p, e.v, e.tripped, msg);
    EnactStaysCorrelated(s, g, used, KeyOf(e), Get(msg, "id"), Decide(p, e.v, e.tripped, msg));
  }

  /** The id whose entry a message consumes: a result's, when the session still reads it. */
  function Consumed(s: ConnState, m: Json): set<Key> {
    if s.open && ResultKey(m).Some? then {ResultKey(m).value} else {}
  }

  /** What an HA message does to the two tables: a result consumes its entry, and nothing
      else changes. */
  lemma HaTables(p: UserPolicy, v: View, s: ConnState, m: Json)
    ensures HaStep(p, v, s, m).subs == s.subs
    ensures HaStep(p, v, s, m).pending == s.pending - Consumed(s, m)
  {
    assert s.pending - {} == s.pending;
    if s.open && ResultKey(m).Some? && ResultKey(m).value !in s.pending {
      assert s.pending - {ResultKey(m).value} == s.pending;
    }
  }

  lemma LedgerConsumes(g: Ledger, s: ConnState, v: View, m: Json, s': ConnState)
    ensures LedgerStep(g, s, FromHa(v, m), s') == g.(awaiting := g.awaiting - Consumed(s, m))
  {
    assert g.awaiting - {} == g.awaiting;
  }

  lemma ResultStaysCorrelated(s: ConnState, g: Ledger, used: set<Key>, s': ConnState, gone: set<Key>)
    requires Correlated(s, g, used)
    requires s'.subs == s.subs && s'.pending == s.pending - gone
    ensures Correlated(s', g.(awaiting := g.awaiting - gone), used)
  {
    var g' := g.(awaiting := g.awaiting - gone);
    forall j | j in g'.commands
      ensures CommandKnown(s', g', used, j)
    {
      assert CommandKnown(s, g, used, j);
    }
    forall j | j in g'.awaiting
      ensures ResultExpected(s', g', j)
    {
      assert ResultExpected(s, g, j);
    }
  }

  lemma HaStaysCorrelated(p: UserPolicy, v: View, s: ConnState, g: Ledger, used: set<Key>, m: Json)
    requires Correlated(s, g, used)
    ensures var e := FromHa(v, m);
      Correlated(Step(p, s, e), LedgerStep(g, s, e, Step(p, s, e)), used)
  {
    var s' := HaStep(p, v, s, m);
    HaTables(p, v, s, m);
    LedgerConsumes(g, s, v, m, s');
    ResultStaysCorrelated(s, g, used, s', Consumed(s, m));
  }

  lemma UsedSnoc(es: seq<Event>)
    requires es != []
    ensures var n := |es| - 1;
      UsedKeys(es) == UsedKeys(es[..n]) + if IsCommand(es[n]) then {KeyOf(es[n])} else {}
    ensures IdsOnce(es) ==> IdsOnce(es[..|es| - 1])
    ensures IdsOnce(es) && IsCommand(es[|es| - 1]) ==> KeyOf(es[|es| - 1]) !in UsedKeys(es[..|es| - 1])
  {
    var n := |es| - 1;
    assert forall e :: e in es <==> e in es[..n] || e == es[n];
  }

  lemma MoreUsed(s: ConnState, g: Ledger, used: set<Key>, more: set<Key>)
    requires Correlated(s, g, used)
    ensures Correlated(s, g, used + more)
  {
    forall j | j in g.commands
      ensures CommandKnown(s, g, used + more, j)
    {
      assert CommandKnown(s, g, used, j);
    }
  }

  /** The correlation invariant holds in every reachable state of every interleaving that
      uses ids once. */
  lemma {:induction false} AlwaysCorrelated(p: UserPolicy, es: seq<Event>)
    requires IdsOnce(es)
    ensures Correlated(Run(p, es), LedgerOf(p, es), UsedKeys(es))
  {
    if es == [] {
    } else {
      var n := |es| - 1;
      UsedSnoc(es);
      AlwaysCorrelated(p, es[..n]);
      var s, g, used := Run(p, es[..n]), LedgerOf(p, es[..n]), UsedKeys(es[..n]);
      match es[n] {
        case FromHa(v, m) => HaStaysCorrelated(p, v, s, g, used, m);
        case FromClient(v, tripped, m) =>
          if s.open && IsCommand(es[n]) {
            CommandStaysCorrelated(p, s, g, used, es[n]);
          } else {
            assert Step(p, s, es[n]) == s;
            MoreUsed(s, g, used, if IsCommand(es[n]) then {KeyOf(es[n])} else {});
          }
        case Disconnected =>
          ResultStaysCorrelated(s, g, used, Close(s), {});
          assert g.awaiting - {} == g.awaiting && s.pending - {} == s.pending;
      }
    }
  }

  /** The invariant read off at one id: the right transform for an outstanding result, the
      right kind for a subscription, and no transform once the result has come. */
  lemma RightFilters(p: UserPolicy, es: seq<Event>, k: Key)
    requires IdsOnce(es)
    ensures var s, g := Run(p, es), LedgerOf(p, es);
      && (k in g.awaiting ==> k in g.commands && Lookup(s.pending, k) == TransformFor(CommandFor(g, k)))
      && (k !in g.awaiting ==> k !in s.pending)
      && (k in g.commands ==> Lookup(s.subs, k) == SubOn(g, k))
  {
    AlwaysCorrelated(p, es);
    var s, g := Run(p, es), LedgerOf(p, es);
    if k in g.awaiting { assert ResultExpected(s, g, k); }
    if k in g.commands { assert CommandKnown(s, g, UsedKeys(es), k); }
  }
}
