/** The running gateway: a clock, the registry, the trip file with its switch, the policies,
    and any number of sessions sharing them, in any interleaving. */
module GatewaySystem {
  import opened Collections
  import opened JsonValues
  import opened Registry
  import opened Policies
  import opened PolicyStores
  import opened Connections
  import PolicyAdmin
  import PolicyChanges
  import Runs
  import Trip

  type SessionId = nat

  /** What is fixed while the gateway runs. */
  datatype Config = Config(checkInterval: real, staleMax: real, alnum: PolicyAdmin.AlNum)

  /** A session runs under the policy it was registered with. */
  datatype Live = Live(identity: Identity, policy: UserPolicy, conn: ConnState)

  datatype System = System(
    now: real,
    fileExists: bool,
    trip: Trip.TripState,
    snap: Snapshot,
    fetchedAt: real,
    rules: PolicyAdmin.State,
    sessions: map<SessionId, Live>)
  {
    predicate Fresh(staleMax: real) {
      fetchedAt != 0.0 && now - fetchedAt <= staleMax
    }

    function View(staleMax: real): Registry.View {
      Registry.View(Fresh(staleMax), snap)
    }
  }

  datatype Action =
    | Tick(elapsed: real)
    | Refresh(snap: Snapshot)
    | FileAppears
    | FileRemoved
    | TripGateway                                     // writes the file and forces a re-read
    | CheckElsewhere                                  // REST, the health probe, a handshake
    | Register(session: SessionId, identity: Identity)
    | HangUp(session: SessionId)                      // a socket of the session closes
    | ClientMessage(session: SessionId, msg: Json)
    | HaMessage(session: SessionId, msg: Json)
    | PutPolicy(key: string, payload: Json)
    | DeletePolicy(key: string)
    | HandWritten(fn: string, root: Json)             // an operator edits the directory
    | HandRemoved(fn: string)

  function Start(now: real, fileExists: bool, rules: PolicyAdmin.State): System {
    System(now, fileExists, Trip.TripState(0.0, false), Snapshot(map[], map[]), 0.0, rules, map[])
  }

  /** The switch after a check at this instant. */
  function Check(c: Config, s: System): Trip.TripState {
    Trip.Checked(s.trip, c.checkInterval, s.now, s.fileExists)
  }

  /** Only a well-formed message read by an open session asks the switch. */
  predicate Asks(s: System, i: SessionId, m: Json) {
    i in s.sessions && s.sessions[i].conn.open && m.JObj? && WellFormed(m.fields)
  }

  /** The action consults the trip switch. */
  predicate Checks(s: System, a: Action) {
    a.CheckElsewhere? || (a.ClientMessage? && Asks(s, a.session, a.msg))
  }

  /** The action closes this session: it hangs up, or its user's policy was changed. */
  predicate Cuts(c: Config, s: System, a: Action, i: SessionId)
    requires i in s.sessions
  {
    match a
    case HangUp(j) => j == i
    case PutPolicy(key, payload) =>
      PolicyAdmin.PutResult(s.rules, key, payload, c.alnum).Stored? && PolicyChanges.Named(s.sessions[i].identity, key)
    case DeletePolicy(key) =>
      PolicyAdmin.DeleteResult(s.rules, key).Removed? && PolicyChanges.Named(s.sessions[i].identity, key)
    case _ => false
  }

  /** What one session reads in an action, with the view and the switch it finds then. */
  function Seen(c: Config, s: System, a: Action, i: SessionId): Option<Runs.Event>
    requires i in s.sessions
  {
    match a
    case ClientMessage(j, m) =>
      if j == i then Some(Runs.FromClient(s.View(c.staleMax), Check(c, s).cached, m)) else None
    case HaMessage(j, m) => if j == i then Some(Runs.FromHa(s.View(c.staleMax), m)) else None
    case _ => if Cuts(c, s, a, i) then Some(Runs.Disconnected) else None
  }

  function SessionAfter(c: Config, s: System, a: Action, i: SessionId): Live
    requires i in s.sessions
  {
    var live, seen := s.sessions[i], Seen(c, s, a, i);
    if seen.Some? then live.(conn := Runs.Step(live.policy, live.conn, seen.value)) else live
  }

  /** A restricted user is accepted with the policy found for them, or not at all. */
  predicate Accepts(s: System, a: Action) {
    a.Register? && a.session !in s.sessions && Find(s.rules.store, a.identity).Some?
  }

  function SessionsAfter(c: Config, s: System, a: Action): map<SessionId, Live> {
    var old_ := map i | i in s.sessions :: SessionAfter(c, s, a, i);
    if Accepts(s, a) then old_[a.session := Live(a.identity, Find(s.rules.store, a.identity).value, START)] else old_
  }

  function RulesAfter(c: Config, s: System, a: Action): PolicyAdmin.State {
    match a
    case PutPolicy(key, payload) => PolicyAdmin.Put(s.rules, key, payload, c.alnum)
    case DeletePolicy(key) => PolicyAdmin.Delete(s.rules, key)
    case HandWritten(fn, root) => s.rules.(disk := s.rules.disk[fn := root])
    case HandRemoved(fn) => s.rules.(disk := s.rules.disk - {fn})
    case _ => s.rules
  }

  function TripAfter(c: Config, s: System, a: Action): Trip.TripState {
    if a.TripGateway? then Trip.Reset(s.trip) else if Checks(s, a) then Check(c, s) else s.trip
  }

  function NowAfter(s: System, a: Action): real {
    if a.Tick? && a.elapsed >= 0.0 then s.now + a.elapsed else s.now
  }

  function FileAfter(s: System, a: Action): bool {
    if a.FileAppears? || a.TripGateway? then true else if a.FileRemoved? then false else s.fileExists
  }

  function Next(c: Config, s: System, a: Action): System {
    System(
      NowAfter(s, a),
      FileAfter(s, a),
      TripAfter(c, s, a),
      if a.Refresh? then a.snap else s.snap,
      if a.Refresh? then s.now else s.fetchedAt,
      RulesAfter(c, s, a),
      SessionsAfter(c, s, a))
  }

  /** An action that only concerns sessions and policies leaves the rest alone. */
  predicate Inner(a: Action) {
    a.Register? || a.HangUp? || a.ClientMessage? || a.HaMessage? || a.PutPolicy? || a.DeletePolicy?
  }

  predicate SameOutside(s: System, t: System) {
    t.now == s.now && t.fileExists == s.fileExists && t.snap == s.snap && t.fetchedAt == s.fetchedAt
  }

  /** A step can be recognised component by component. */
  lemma IsNext(c: Config, s: System, a: Action, t: System)
    requires Inner(a) && SameOutside(s, t)
    requires t.rules == RulesAfter(c, s, a) && t.trip == TripAfter(c, s, a)
    requires t.sessions.Keys == s.sessions.Keys + if Accepts(s, a) then {a.session} else {}
    requires forall i :: i in s.sessions ==> t.sessions[i] == SessionAfter(c, s, a, i)
    requires Accepts(s, a) ==>
      t.sessions[a.session] == Live(a.identity, Find(s.rules.store, a.identity).value, START)
    ensures t == Next(c, s, a)
  {
    assert t.sessions == SessionsAfter(c, s, a);
  }

  /** At most the one session, and the switch, have changed. */
  ghost predicate OneSession(s: System, t: System, i: SessionId) {
    && SameOutside(s, t) && t.rules == s.rules && t.sessions.Keys == s.sessions.Keys
    && forall j :: j in s.sessions && j != i ==> t.sessions[j] == s.sessions[j]
  }

  lemma IsNextOfSession(c: Config, s: System, a: Action, t: System)
    requires a.ClientMessage? || a.HaMessage? || a.HangUp?
    requires OneSession(s, t, a.session) && t.trip == TripAfter(c, s, a)
    requires a.session in s.sessions ==> t.sessions[a.session] == SessionAfter(c, s, a, a.session)
    ensures t == Next(c, s, a)
  {
    IsNext(c, s, a, t);
  }

  /** A message the session reads. */
  lemma ClientIsNext(c: Config, s: System, t: System, i: SessionId, m: Fields)
    requires i in s.sessions && s.sessions[i].conn.open && OneSession(s, t, i)
    requires t.trip == if WellFormed(m) then Check(c, s) else s.trip
    requires var live := s.sessions[i];
      t.sessions[i] == live.(conn := ClientStep(live.policy, s.View(c.staleMax), t.trip.cached, live.conn, JObj(m)))
    ensures t == Next(c, s, ClientMessage(i, JObj(m)))
  {
    IsNextOfSession(c, s, ClientMessage(i, JObj(m)), t);
  }

  lemma HaIsNext(c: Config, s: System, t: System, i: SessionId, m: Json)
    requires i in s.sessions && OneSession(s, t, i) && t.trip == s.trip
    requires var live := s.sessions[i];
      t.sessions[i] == live.(conn := HaStep(live.policy, s.View(c.staleMax), live.conn, m))
    ensures t == Next(c, s, HaMessage(i, m))
  {
    IsNextOfSession(c, s, HaMessage(i, m), t);
  }

  lemma CloseIsNext(c: Config, s: System, t: System, i: SessionId)
    requires i in s.sessions && OneSession(s, t, i) && t.trip == s.trip
    requires t.sessions[i] == CutIf(s.sessions[i], true)
    ensures t == Next(c, s, HangUp(i))
  {
    IsNextOfSession(c, s, HangUp(i), t);
  }

  /** A session that is not there or not open, or a message that is no object, changes nothing. */
  lemma NothingIsNext(c: Config, s: System, a: Action)
    requires a.ClientMessage? || a.HaMessage? || a.HangUp?
    requires
      || a.session !in s.sessions
      || (!a.HangUp? && !s.sessions[a.session].conn.open)
      || (a.ClientMessage? && !a.msg.JObj?)
    ensures s == Next(c, s, a)
  {
    IsNextOfSession(c, s, a, s);
  }

  lemma IsNextRegistered(c: Config, s: System, i: SessionId, identity: Identity, t: System)
    requires SameOutside(s, t) && t.rules == s.rules && t.trip == s.trip
    requires i !in s.sessions && Find(s.rules.store, identity).Some?
    requires t.sessions.Keys == s.sessions.Keys + {i} && forall j :: j in s.sessions ==> t.sessions[j] == s.sessions[j]
    requires t.sessions[i] == Live(identity, Find(s.rules.store, identity).value, START)
    ensures t == Next(c, s, Register(i, identity))
  {
    IsNext(c, s, Register(i, identity), t);
  }

  lemma NobodyIsRegistered(c: Config, s: System, i: SessionId, identity: Identity)
    requires i in s.sessions || Find(s.rules.store, identity).None?
    ensures s == Next(c, s, Register(i, identity))
  {
    IsNext(c, s, Register(i, identity), s);
  }

  /** The sessions of the users the key names are closed, if the change went through. */
  lemma IsNextChanged(c: Config, s: System, a: Action, t: System)
    requires (a.PutPolicy? || a.DeletePolicy?) && SameOutside(s, t) && t.trip == s.trip
    requires t.rules == RulesAfter(c, s, a) && t.sessions.Keys == s.sessions.Keys
    requires forall i :: i in s.sessions ==>
      t.sessions[i] == CutIf(s.sessions[i], WentThrough(c, s, a) && PolicyChanges.Named(s.sessions[i].identity, a.key))
    ensures t == Next(c, s, a)
  {
    forall i | i in s.sessions
      ensures t.sessions[i] == SessionAfter(c, s, a, i)
    {
      ChangeClosesIf(c, s, a, i);
    }
    IsNext(c, s, a, t);
  }

  function CutIf(live: Live, cut: bool): Live {
    if cut then live.(conn := Close(live.conn)) else live
  }

  /** An action of the surroundings leaves sessions and policies alone. */
  lemma IsNextOutside(c: Config, s: System, a: Action, t: System)
    requires a.Tick? || a.Refresh? || a.FileAppears? || a.FileRemoved? || a.TripGateway? || a.CheckElsewhere?
    requires t.rules == s.rules && t.trip == TripAfter(c, s, a)
    requires t.now == NowAfter(s, a) && t.fileExists == FileAfter(s, a)
    requires t.snap == (if a.Refresh? then a.snap else s.snap)
    requires t.fetchedAt == (if a.Refresh? then s.now else s.fetchedAt)
    requires t.sessions.Keys == s.sessions.Keys && forall i :: i in s.sessions ==> t.sessions[i] == s.sessions[i]
    ensures t == Next(c, s, a)
  {
    assert t.sessions == SessionsAfter(c, s, a);
  }

  /** What a change of policy does to one session. */
  lemma ChangeClosesIf(c: Config, s: System, a: Action, i: SessionId)
    requires (a.PutPolicy? || a.DeletePolicy?) && i in s.sessions
    ensures SessionAfter(c, s, a, i) ==
      CutIf(s.sessions[i], WentThrough(c, s, a) && PolicyChanges.Named(s.sessions[i].identity, a.key))
  {}

  function After(c: Config, s: System, actions: seq<Action>): System {
    if actions == [] then s
    else Next(c, After(c, s, actions[..|actions| - 1]), actions[|actions| - 1])
  }

  // ---- every session of the system is a session run ----

  /** What a session has read since it was registered. */
  function Project(c: Config, s: System, actions: seq<Action>, i: SessionId): seq<Runs.Event> {
    if actions == [] then []
    else
      var n := |actions| - 1;
      var before, events := After(c, s, actions[..n]), Project(c, s, actions[..n], i);
      if i !in before.sessions then []
      else
        var seen := Seen(c, before, actions[n], i);
        if seen.Some? then events + [seen.value] else events
  }

  lemma SessionSteps(c: Config, s: System, a: Action, i: SessionId)
    requires i in Next(c, s, a).sessions
    ensures i in s.sessions ==> Next(c, s, a).sessions[i] == SessionAfter(c, s, a, i)
    ensures i !in s.sessions ==> Accepts(s, a) && a.session == i
    ensures i !in s.sessions ==>
      Next(c, s, a).sessions[i] == Live(a.identity, Find(s.rules.store, a.identity).value, START)
  {}

  /** So everything proved of session runs holds of every session of the running gateway,
      whatever the clock, the registry, the file, the administrators and the other sessions
      do. */
  lemma {:induction false} SessionsAreRuns(c: Config, now: real, fileExists: bool, rules: PolicyAdmin.State,
                                           actions: seq<Action>, i: SessionId)
    requires i in After(c, Start(now, fileExists, rules), actions).sessions
    ensures var live := After(c, Start(now, fileExists, rules), actions).sessions[i];
      live.conn == Runs.Run(live.policy, Project(c, Start(now, fileExists, rules), actions, i))
  {
    if actions == [] {
    } else {
      var n := |actions| - 1;
      var start := Start(now, fileExists, rules);
      var before, events := After(c, start, actions[..n]), Project(c, start, actions[..n], i);
      SessionSteps(c, before, actions[n], i);
      if i in before.sessions {
        SessionsAreRuns(c, now, fileExists, rules, actions[..n], i);
        var seen := Seen(c, before, actions[n], i);
        if seen.Some? { assert (events + [seen.value])[..|events|] == events; }
      }
    }
  }

  // ---- open sessions run under the policies in force ----

  /** Every open session runs under the policy its user would be given now. */
  ghost predicate Current(s: System) {
    forall i :: i in s.sessions && s.sessions[i].conn.open ==> CurrentSession(s.rules, s.sessions[i])
  }

  predicate CurrentSession(rules: PolicyAdmin.State, live: Live) {
    live.identity.userId != "" && Find(rules.store, live.identity) == Some(live.policy)
  }

  /** Users have ids, and no change of policy leaves behind a user its key does not name.
      Files may be edited by hand, and store and directory be out of step. */
  ghost predicate Orderly(c: Config, s: System, a: Action) {
    match a
    case PutPolicy(key, _) => PolicyChanges.NoneStranded(s.rules.store, RulesAfter(c, s, a).store, key)
    case DeletePolicy(key) => PolicyChanges.NoneStranded(s.rules.store, RulesAfter(c, s, a).store, key)
    case Register(_, identity) => identity.userId != ""
    case _ => true
  }

  ghost predicate OrderlyRun(c: Config, s: System, actions: seq<Action>) {
    forall j :: 0 <= j < |actions| ==> Orderly(c, After(c, s, actions[..j]), actions[j])
  }

  /** The condition on a PUT, while store and directory are in step, in terms of what is
      known before it. */
  lemma OrderlyPutExactly(c: Config, s: System, key: string, payload: Json)
    requires s.rules.Synced() && PolicyAdmin.Sane(c.alnum)
    ensures Orderly(c, s, PutPolicy(key, payload)) <==> PolicyChanges.HarmlessPut(s.rules, key, payload, c.alnum)
  {
    OrderlyPut(c, s, key, payload);
    PolicyChanges.HarmlessPutExactly(s.rules, key, payload, c.alnum);
  }

  lemma OrderlyPut(c: Config, s: System, key: string, payload: Json)
    ensures Orderly(c, s, PutPolicy(key, payload)) <==>
      PolicyChanges.NoneStranded(s.rules.store, PolicyAdmin.Put(s.rules, key, payload, c.alnum).store, key)
  {
    var b := RulesAfter(c, s, PutPolicy(key, payload)).store;
    assert b == PolicyAdmin.Put(s.rules, key, payload, c.alnum).store;
    assert Orderly(c, s, PutPolicy(key, payload)) == PolicyChanges.NoneStranded(s.rules.store, b, key);
  }

  /** And a DELETE always meets it then. */
  lemma SyncedDeleteIsOrderly(c: Config, s: System, key: string)
    requires s.rules.Synced() && key != ""
    ensures Orderly(c, s, DeletePolicy(key))
  {
    PolicyChanges.DeleteSpares(s.rules, key);
  }

  lemma RulesStayGood(c: Config, s: System, a: Action)
    requires Good(s.rules.store)
    ensures Good(RulesAfter(c, s, a).store)
  {
    match a
    case PutPolicy(key, payload) => PolicyChanges.PutIsGood(s.rules, key, payload, c.alnum);
    case DeletePolicy(key) => PolicyChanges.DeleteIsGood(s.rules, key);
    case _ =>
  }

  /** What `find` gives changes only for those whom the change of policy disconnects. */
  lemma ChangeSpares(c: Config, s: System, a: Action, i: SessionId)
    requires Good(s.rules.store) && Orderly(c, s, a)
    requires i in s.sessions && !Cuts(c, s, a, i) && CurrentSession(s.rules, s.sessions[i])
    ensures Find(RulesAfter(c, s, a).store, s.sessions[i].identity) == Find(s.rules.store, s.sessions[i].identity)
  {
    RulesStayGood(c, s, a);
    match a
    case PutPolicy(key, payload) =>
      PolicyAdmin.FailedPutLeavesStore(s.rules, key, payload, c.alnum);
      PolicyChanges.StrandsExactly(s.rules.store, RulesAfter(c, s, a).store, key);
    case DeletePolicy(key) =>
      PolicyChanges.UnremovedLeavesStore(s.rules, key);
      PolicyChanges.StrandsExactly(s.rules.store, RulesAfter(c, s, a).store, key);
    case _ =>
  }

  /** It is exact: of every possible user with a session, the change leaves none behind if
      and only if it is orderly. */
  lemma OrderlyExactly(c: Config, s: System, a: Action, j: SessionId)
    requires Good(s.rules.store) && (a.PutPolicy? || a.DeletePolicy?) && j !in s.sessions
    requires RulesAfter(c, s, a).store != s.rules.store
    ensures Orderly(c, s, a) <==>
      forall i: Identity :: i.userId != "" ==> NotLeftBehind(c, Next(c, s, Register(j, i)), a, j)
  {
    RulesStayGood(c, s, a);
    var key, b := a.key, RulesAfter(c, s, a).store;
    PolicyChanges.StrandsExactly(s.rules.store, b, key);
    ChangeCuts(c, s, a);
    forall i: Identity | i.userId != ""
      ensures NotLeftBehind(c, Next(c, s, Register(j, i)), a, j) <==>
        PolicyChanges.Named(i, key) || Find(s.rules.store, i).None? || Find(b, i) == Find(s.rules.store, i)
    {
      NewcomerLeftBehind(c, s, a, j, i);
    }
  }

  /** After the action the session, if it is there and open, is current. */
  predicate NotLeftBehind(c: Config, s: System, a: Action, j: SessionId) {
    var t := Next(c, s, a);
    j in t.sessions && t.sessions[j].conn.open ==> CurrentSession(t.rules, t.sessions[j])
  }

  /** The change went through, so it disconnects the users its key names. */
  predicate WentThrough(c: Config, s: System, a: Action) {
    || (a.PutPolicy? && PolicyAdmin.PutResult(s.rules, a.key, a.payload, c.alnum).Stored?)
    || (a.DeletePolicy? && PolicyAdmin.DeleteResult(s.rules, a.key).Removed?)
  }

  lemma ChangeCuts(c: Config, s: System, a: Action)
    requires (a.PutPolicy? || a.DeletePolicy?) && RulesAfter(c, s, a).store != s.rules.store
    ensures WentThrough(c, s, a)
  {
    match a
    case PutPolicy(key, payload) => PolicyAdmin.FailedPutLeavesStore(s.rules, key, payload, c.alnum);
    case DeletePolicy(key) => PolicyChanges.UnremovedLeavesStore(s.rules, key);
  }

  lemma Registered(c: Config, s: System, j: SessionId, i: Identity)
    requires j !in s.sessions
    ensures var t := Next(c, s, Register(j, i));
      t.rules == s.rules && t.sessions.Keys == s.sessions.Keys + (if Find(s.rules.store, i).Some? then {j} else {}) &&
      (j in t.sessions ==> t.sessions[j] == Live(i, Find(s.rules.store, i).value, START))
  {}

  lemma Changed(c: Config, t: System, a: Action, j: SessionId)
    requires (a.PutPolicy? || a.DeletePolicy?) && j in t.sessions
    ensures var u := Next(c, t, a);
      u.rules == RulesAfter(c, t, a) && j in u.sessions &&
      u.sessions[j] == CutIf(t.sessions[j], WentThrough(c, t, a) && PolicyChanges.Named(t.sessions[j].identity, a.key))
  {
    ChangeClosesIf(c, t, a, j);
    SessionSteps(c, t, a, j);
  }

  lemma NobodyAppears(c: Config, t: System, a: Action, j: SessionId)
    requires (a.PutPolicy? || a.DeletePolicy?) && j !in t.sessions
    ensures j !in Next(c, t, a).sessions
  {}

  lemma NewcomerLeftBehind(c: Config, s: System, a: Action, j: SessionId, i: Identity)
    requires WentThrough(c, s, a) && j !in s.sessions && i.userId != ""
    ensures NotLeftBehind(c, Next(c, s, Register(j, i)), a, j) <==>
      PolicyChanges.Named(i, a.key) || Find(s.rules.store, i).None? ||
      Find(RulesAfter(c, s, a).store, i) == Find(s.rules.store, i)
  {
    var t := Next(c, s, Register(j, i));
    Registered(c, s, j, i);
    SameChange(c, s, t, a);
    if j in t.sessions { Changed(c, t, a, j); } else { NobodyAppears(c, t, a, j); }
  }

  lemma SameChange(c: Config, s: System, t: System, a: Action)
    requires t.rules == s.rules
    ensures RulesAfter(c, t, a) == RulesAfter(c, s, a) && (WentThrough(c, t, a) <==> WentThrough(c, s, a))
  {}

  lemma OpenBefore(c: Config, s: System, a: Action, i: SessionId)
    requires i in s.sessions && SessionAfter(c, s, a, i).conn.open
    ensures s.sessions[i].conn.open && !Cuts(c, s, a, i)
  {}

  lemma CurrentStep(c: Config, s: System, a: Action)
    requires Current(s) && Good(s.rules.store) && Orderly(c, s, a)
    ensures Current(Next(c, s, a))
  {
    var s' := Next(c, s, a);
    forall i | i in s'.sessions && s'.sessions[i].conn.open
      ensures CurrentSession(s'.rules, s'.sessions[i])
    {
      SessionSteps(c, s, a, i);
      if i in s.sessions {
        OpenBefore(c, s, a, i);
        ChangeSpares(c, s, a, i);
      }
    }
  }

  lemma OrderlyFront(c: Config, s: System, actions: seq<Action>)
    requires actions != [] && OrderlyRun(c, s, actions)
    ensures OrderlyRun(c, s, actions[..|actions| - 1])
    ensures Orderly(c, After(c, s, actions[..|actions| - 1]), actions[|actions| - 1])
  {
    var front := actions[..|actions| - 1];
    forall j | 0 <= j < |front|
      ensures Orderly(c, After(c, s, front[..j]), front[j])
    {
      assert front[..j] == actions[..j];
    }
  }

  lemma {:induction false} AlwaysCurrent(c: Config, s: System, actions: seq<Action>)
    requires Current(s) && Good(s.rules.store) && OrderlyRun(c, s, actions)
    ensures Current(After(c, s, actions)) && Good(After(c, s, actions).rules.store)
  {
    if actions == [] {
    } else {
      OrderlyFront(c, s, actions);
      AlwaysCurrent(c, s, actions[..|actions| - 1]);
      CurrentStep(c, After(c, s, actions[..|actions| - 1]), actions[|actions| - 1]);
      RulesStayGood(c, After(c, s, actions[..|actions| - 1]), actions[|actions| - 1]);
    }
  }

  /** A fresh installation after one user's PUT. */
  function AfterFirstPut(c: Config, now: real, fileExists: bool, key: string): System {
    Next(c, Start(now, fileExists, PolicyAdmin.State(map[], [])), PutPolicy(key, PolicyAdmin.Template(key)))
  }

  lemma FirstPutState(c: Config, now: real, fileExists: bool, key: string)
    ensures AfterFirstPut(c, now, fileExists, key).sessions == map[]
    ensures AfterFirstPut(c, now, fileExists, key).rules ==
      PolicyAdmin.Put(PolicyAdmin.State(map[], []), key, PolicyAdmin.Template(key), c.alnum)
  {}

  /** Where a change leaves a session behind: two users whose ids share a slug, as `a b` and
      `a-b` do. The first has a policy and a session; a PUT for the second takes the file,
      closes nothing, and the session goes on under a policy its user no longer has. */
  lemma SlugStrandsSession(c: Config, now: real, fileExists: bool, j: SessionId, i: Identity, key: string)
    requires PolicyAdmin.Sane(c.alnum) && i.userId != "" && key != "" && !PolicyChanges.Named(i, key)
    requires PolicyAdmin.SafeFilename(i.userId, c.alnum) == PolicyAdmin.SafeFilename(key, c.alnum)
    ensures var before := Next(c, AfterFirstPut(c, now, fileExists, i.userId), Register(j, i));
      var after := Next(c, before, PutPolicy(key, PolicyAdmin.Template(key)));
      Current(before) && j in after.sessions && after.sessions[j].conn.open &&
      Find(after.rules.store, i).None? && !Current(after)
  {
    PolicyAdmin.SecondTakesFirst(i.userId, key, c.alnum, i);
    FirstPutState(c, now, fileExists, i.userId);
    Stranded(c, AfterFirstPut(c, now, fileExists, i.userId), j, i, key, PolicyAdmin.Template(key));
  }

  lemma Stranded(c: Config, s: System, j: SessionId, i: Identity, key: string, payload: Json)
    requires s.sessions == map[] && i.userId != "" && !PolicyChanges.Named(i, key)
    requires Find(s.rules.store, i).Some?
    requires Find(PolicyAdmin.Put(s.rules, key, payload, c.alnum).store, i).None?
    ensures var before := Next(c, s, Register(j, i));
      var after := Next(c, before, PutPolicy(key, payload));
      Current(before) && j in after.sessions && after.sessions[j].conn.open &&
      Find(after.rules.store, i).None? && !Current(after)
  {
    var before := Next(c, s, Register(j, i));
    Registered(c, s, j, i);
    SameChange(c, s, before, PutPolicy(key, payload));
    Changed(c, before, PutPolicy(key, payload), j);
  }

  /** The action is the session's message that made the gateway write this frame: the switch
      was off, and the frame was safe under the policy in force for the user right then. */
  ghost predicate SafelyWritten(c: Config, s: System, a: Action, i: SessionId, frame: Json) {
    && a.ClientMessage? && a.session == i && Asks(s, i, a.msg) && !Check(c, s).cached
    && var granted := Find(s.rules.store, s.sessions[i].identity);
       granted.Some? && frame.JObj? &&
       Runs.SafeUpstream(granted.value, s.View(c.staleMax), a.msg.fields, frame.fields)
  }

  lemma WrittenNow(c: Config, s: System, a: Action, i: SessionId, frame: Json)
    requires Current(s) && i in s.sessions
    requires frame in SessionAfter(c, s, a, i).conn.up && frame !in s.sessions[i].conn.up
    ensures SafelyWritten(c, s, a, i, frame)
  {
    var live := s.sessions[i];
    match a
    case ClientMessage(j, m) => Runs.ClientWritesOne(live.policy, live.conn, Seen(c, s, a, i).value);
    case HaMessage(j, m) => Runs.HaWritesNothing(live.policy, s.View(c.staleMax), live.conn, m);
    case _ =>
  }

  ghost predicate WrittenAt(c: Config, s: System, actions: seq<Action>, i: SessionId, frame: Json) {
    exists j: nat :: j < |actions| && SafelyWritten(c, After(c, s, actions[..j]), actions[j], i, frame)
  }

  lemma WrittenBefore(c: Config, s: System, actions: seq<Action>, i: SessionId, frame: Json)
    requires actions != [] && WrittenAt(c, s, actions[..|actions| - 1], i, frame)
    ensures WrittenAt(c, s, actions, i, frame)
  {
    var front := actions[..|actions| - 1];
    var j: nat :| j < |front| && SafelyWritten(c, After(c, s, front[..j]), front[j], i, frame);
    assert front[..j] == actions[..j] && front[j] == actions[j];
    assert SafelyWritten(c, After(c, s, actions[..j]), actions[j], i, frame);
  }

  lemma WrittenLast(c: Config, s: System, actions: seq<Action>, i: SessionId, frame: Json)
    requires actions != []
    requires SafelyWritten(c, After(c, s, actions[..|actions| - 1]), actions[|actions| - 1], i, frame)
    ensures WrittenAt(c, s, actions, i, frame)
  {}

  lemma NewcomersAreSilent(c: Config, s: System, a: Action, i: SessionId, frame: Json)
    requires i in Next(c, s, a).sessions && frame in Next(c, s, a).sessions[i].conn.up
    ensures i in s.sessions && frame in SessionAfter(c, s, a, i).conn.up
  {
    SessionSteps(c, s, a, i);
  }

  /** Over any orderly history of the whole gateway, with sessions coming and going and
      policies edited and revoked under them: every frame any session ever wrote upstream
      was safe under the policy its user would have been given at that instant. */
  lemma {:induction false} UpstreamFollowsPolicy(c: Config, s: System, actions: seq<Action>, i: SessionId, frame: Json)
    requires s.sessions == map[] && Good(s.rules.store) && OrderlyRun(c, s, actions)
    requires i in After(c, s, actions).sessions && frame in After(c, s, actions).sessions[i].conn.up
    ensures WrittenAt(c, s, actions, i, frame)
  {
    if actions == [] {
    } else {
      var n := |actions| - 1;
      var before := After(c, s, actions[..n]);
      OrderlyFront(c, s, actions);
      NewcomersAreSilent(c, before, actions[n], i, frame);
      if frame in before.sessions[i].conn.up {
        UpstreamFollowsPolicy(c, s, actions[..n], i, frame);
        WrittenBefore(c, s, actions, i, frame);
      } else {
        AlwaysCurrent(c, s, actions[..n]);
        WrittenNow(c, before, actions[n], i, frame);
        WrittenLast(c, s, actions, i, frame);
      }
    }
  }

  // ---- the trip switch ----

  lemma {:induction false} ClockNeverGoesBack(c: Config, s: System, actions: seq<Action>, j: nat)
    requires j <= |actions|
    ensures After(c, s, actions[..j]).now <= After(c, s, actions).now
  {
    if j == |actions| {
      assert actions[..j] == actions;
    } else {
      var n := |actions| - 1;
      ClockNeverGoesBack(c, s, actions[..n], j);
      assert actions[..n][..j] == actions[..j];
    }
  }

  /** The cached answer was read from the file after some prefix of the run. */
  ghost predicate ReadAt(c: Config, s: System, actions: seq<Action>, j: nat)
    requires j <= |actions|
  {
    var then_, now_ := After(c, s, actions[..j]), After(c, s, actions);
    then_.now == now_.trip.lastCheck && then_.fileExists == now_.trip.cached
  }

  ghost predicate Backed(c: Config, s: System, actions: seq<Action>) {
    After(c, s, actions).trip.lastCheck == 0.0 || exists j: nat :: j <= |actions| && ReadAt(c, s, actions, j)
  }

  lemma {:induction false} AnswersAreBacked(c: Config, now: real, fileExists: bool, rules: PolicyAdmin.State,
                                            actions: seq<Action>)
    ensures Backed(c, Start(now, fileExists, rules), actions)
  {
    var start := Start(now, fileExists, rules);
    if actions == [] {
    } else {
      var n := |actions| - 1;
      AnswersAreBacked(c, now, fileExists, rules, actions[..n]);
      var before, after := After(c, start, actions[..n]), After(c, start, actions);
      if after.trip == before.trip && after.trip.lastCheck != 0.0 {
        var j: nat :| j <= n && ReadAt(c, start, actions[..n], j);
        assert actions[..n][..j] == actions[..j];
        assert ReadAt(c, start, actions, j);
      } else if after.trip.lastCheck != 0.0 {
        assert after.trip == Trip.TripState(before.now, before.fileExists);
        assert ReadAt(c, start, actions, n);
      }
    }
  }

  /** Bounded staleness: once the clock is past the check interval, whatever a check answers
      was true of the file at some instant of the run within the last interval. */
  lemma AnswersAreRecent(c: Config, now: real, fileExists: bool, rules: PolicyAdmin.State, actions: seq<Action>)
    requires 0.0 < c.checkInterval <= now
    ensures var start := Start(now, fileExists, rules);
      var s := After(c, start, actions);
      exists j: nat :: j <= |actions| &&
        After(c, start, actions[..j]).fileExists == Check(c, s).cached &&
        0.0 <= s.now - After(c, start, actions[..j]).now < c.checkInterval
  {
    var start := Start(now, fileExists, rules);
    var s := After(c, start, actions);
    AnswersAreBacked(c, now, fileExists, rules, actions);
    ClockNeverGoesBack(c, start, actions, 0);
    assert actions[..0] == [] && actions[..|actions|] == actions;
    if s.now - s.trip.lastCheck >= c.checkInterval {
      assert After(c, start, actions[..|actions|]).fileExists == Check(c, s).cached;
    } else {
      var j: nat :| j <= |actions| && ReadAt(c, start, actions, j);
      ClockNeverGoesBack(c, start, actions, j);
    }
  }

  /** Nothing consults the switch while these actions happen. */
  ghost predicate Unchecked(c: Config, s: System, actions: seq<Action>) {
    forall j :: 0 <= j < |actions| ==> !Checks(After(c, s, actions[..j]), actions[j])
  }

  lemma {:induction false} StaysReset(c: Config, s: System, actions: seq<Action>)
    requires s.trip.lastCheck == 0.0 && Unchecked(c, s, actions)
    ensures After(c, s, actions).trip == s.trip
  {
    if actions == [] {
    } else {
      var front := actions[..|actions| - 1];
      forall j | 0 <= j < |front|
        ensures !Checks(After(c, s, front[..j]), front[j])
      {
        assert front[..j] == actions[..j];
      }
      StaysReset(c, s, front);
    }
  }

  /** However much later it comes, the first check after `trip` re-reads the file, unless the
      clock itself is still younger than the check interval: then it repeats the cached
      answer. */
  lemma TripForcesReread(c: Config, s: System, rest: seq<Action>)
    requires 0.0 < c.checkInterval && Unchecked(c, Next(c, s, TripGateway), rest)
    ensures var t := After(c, Next(c, s, TripGateway), rest);
      Check(c, t) == if t.now >= c.checkInterval then Trip.TripState(t.now, t.fileExists) else Trip.Reset(s.trip)
  {
    StaysReset(c, Next(c, s, TripGateway), rest);
  }

  /** Tripped, and the file is still there. */
  predicate Armed(s: System) {
    s.trip.cached && s.fileExists
  }

  /** No session has written anything since, and no new one has written at all. */
  ghost predicate NothingWritten(s: System, t: System) {
    && (forall i :: i in s.sessions ==> i in t.sessions && t.sessions[i].conn.up == s.sessions[i].conn.up)
    && (forall i :: i in t.sessions && i !in s.sessions ==> t.sessions[i].conn.up == [])
  }

  /** A session writes nothing in an action that finds the switch on. */
  lemma SilentWhenOn(c: Config, s: System, a: Action, i: SessionId)
    requires i in s.sessions && (Checks(s, a) ==> Check(c, s).cached)
    ensures SessionAfter(c, s, a, i).conn.up == s.sessions[i].conn.up
  {
    var live := s.sessions[i];
    match a
    case HaMessage(j, m) => Runs.HaWritesNothing(live.policy, s.View(c.staleMax), live.conn, m);
    case ClientMessage(j, m) => if j == i { Runs.ClientWritesOne(live.policy, live.conn, Seen(c, s, a, i).value); }
    case _ =>
  }

  lemma QuietStep(c: Config, s: System, a: Action)
    requires Checks(s, a) ==> Check(c, s).cached
    ensures NothingWritten(s, Next(c, s, a))
  {
    var s' := Next(c, s, a);
    forall i | i in s'.sessions
      ensures s'.sessions[i].conn.up == if i in s.sessions then s.sessions[i].conn.up else []
    {
      SessionSteps(c, s, a, i);
      if i in s.sessions { SilentWhenOn(c, s, a, i); }
    }
  }

  lemma {:induction false} ArmedRun(c: Config, s: System, actions: seq<Action>)
    requires Armed(s) && FileRemoved !in actions
    ensures Armed(After(c, s, actions)) && NothingWritten(s, After(c, s, actions))
  {
    if actions == [] {
    } else {
      var n := |actions| - 1;
      ArmedRun(c, s, actions[..n]);
      assert actions[n] in actions;
      QuietStep(c, After(c, s, actions[..n]), actions[n]);
    }
  }

  /** From the first true answer on, and for as long as nobody removes the file, no session
      writes another frame upstream -- not even for the message that got the answer. */
  lemma TripStopsUpstream(c: Config, s: System, a: Action, rest: seq<Action>)
    requires !s.trip.cached && Next(c, s, a).trip.cached
    requires FileRemoved !in rest
    ensures NothingWritten(s, After(c, Next(c, s, a), rest))
  {
    QuietStep(c, s, a);
    ArmedRun(c, Next(c, s, a), rest);
  }
}
