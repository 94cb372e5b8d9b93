/** The gateway object: policy directory, running store, and the open sessions, which a
    change of policy has to reach. */
module Gateways {
  import opened Collections
  import opened JsonValues
  import opened Policies
  import opened PolicyStores
  import opened PolicyEditor
  import opened PolicyAdmin
  import opened PolicyChanges
  import opened Connections
  import opened Session

  /** The session is closed, and nothing else of it changes. */
  function CutIf(s: ConnState, cut: bool): ConnState {
    if cut then Close(s) else s
  }

  /** Shapes a payload into a document and has the parser check it. */
  method Validate(payload: Json, fn: string) returns (root: Option<Json>)
    ensures root == Validated(payload, fn)
  {
    root := EditorToMapping(payload);
    if root.None? { return None; }
    var p := ParsePolicy(root.value, fn);
    return if p.Some? then root else None;
  }

  lemma PutByCases(s: State, key: string, payload: Json, alnum: AlNum, fn: string, root: Option<Json>)
    requires fn == FileFor(s.store, key, alnum) && root == Validated(payload, fn)
    ensures Put(s, key, payload, alnum) == if root.None? then s else Write(s, fn, root.value)
    ensures PutResult(s, key, payload, alnum) ==
      if root.None? then Refused else if Load(s.disk[fn := root.value]).Some? then Stored(fn) else ReloadFailed
  {}

  lemma DeleteByCases(s: State, key: string, p: Option<UserPolicy>)
    requires p == Claimed(s.store, key)
    ensures Delete(s, key) == if p.None? then s else Remove(s, p.value.sourceFile)
    ensures DeleteResult(s, key) ==
      if p.None? then NoPolicy else if Load(s.disk - {p.value.sourceFile}).Some? then Removed else Failed
  {}

  class Gateway {
    const alnum: AlNum
    const registry: Registry.RegistryCache
    const trip: Trip.TripSwitch
    var disk: Disk
    var policies: seq<UserPolicy>
    var live: set<Connection>

    constructor (alnum: AlNum, registry: Registry.RegistryCache, trip: Trip.TripSwitch,
                 disk: Disk, policies: seq<UserPolicy>)
      requires Load(disk) == Some(policies)
      ensures this.alnum == alnum && State() == PolicyAdmin.State(disk, policies) && live == {} && Current()
    {
      this.registry, this.trip := registry, trip;
      this.alnum, this.disk, this.policies, live := alnum, disk, policies, {};
    }

    function State(): State
      reads this
    {
      PolicyAdmin.State(disk, policies)
    }

    /** Every open session runs under the policy its user would be given now. */
    ghost predicate Current()
      reads this, live
    {
      forall c :: c in live && c.open ==> c.identity.userId != "" && Find(policies, c.identity) == Some(c.policy)
    }

    /** Accepts a restricted user's session, or nobody without a policy. */
    method RegisterWs(identity: Identity) returns (c: Option<Connection>)
      modifies this
      ensures State() == old(State())
      ensures c.Some? <==> Find(policies, identity).Some?
      ensures c.None? ==> live == old(live)
      ensures c.Some? ==> fresh(c.value) && live == old(live) + {c.value} && c.value.State() == START
      ensures c.Some? ==> c.value.registry == registry && c.value.trip == trip
      ensures c.Some? ==> c.value.identity == identity && Find(policies, identity) == Some(c.value.policy)
      ensures old(Current()) && identity.userId != "" ==> Current()
    {
      var policy := Find(policies, identity);
      if policy.None? { return None; }
      var s := new Connection(identity, policy.value, registry, trip);
      live := live + {s};
      return Some(s);
    }

    method UnregisterWs(c: Connection)
      modifies this
      ensures State() == old(State()) && live == old(live) - {c}
      ensures old(Current()) ==> Current()
    {
      live := live - {c};
    }

    /** Closes exactly the open sessions of the addressed user. */
    method DisconnectUser(key: string) returns (n: nat)
      modifies live
      ensures n == |set c | c in live && Named(c.identity, key)|
      ensures forall c :: c in live ==> c.State() == CutIf(old(c.State()), Named(c.identity, key))
    {
      var victims := set c | c in live && Named(c.identity, key);
      n := |victims|;
      var todo := victims;
      while todo != {}
        invariant todo <= victims
        invariant forall c :: c in live ==> c.State() == CutIf(old(c.State()), c in victims - todo)
      {
        var c :| c in todo;
        todo := todo - {c};
        c.CloseNow();
      }
    }

    /** Swaps the store only if the whole directory loads. */
    method ReloadPolicies() returns (ok: bool)
      modifies this
      ensures live == old(live) && ok == Load(disk).Some?
      ensures State() == Reload(old(State()))
    {
      var loaded := LoadDir(disk);
      if loaded.Some? { policies := loaded.value; }
      return loaded.Some?;
    }

    /** When everybody else whom the store served keeps their policy, the sessions left open
        run under what `find` gives their users: see `PolicyChanges.StrandsExactly`. */
    method PutPolicy(key: string, payload: Json) returns (outcome: PutOutcome)
      modifies this, live
      ensures live == old(live)
      ensures State() == Put(old(State()), key, payload, alnum)
      ensures outcome == PutResult(old(State()), key, payload, alnum)
      ensures forall c :: c in live ==> c.State() == CutIf(old(c.State()), outcome.Stored? && Named(c.identity, key))
      ensures old(Current()) && SparesServed(old(policies), policies, key) ==> Current()
    {
      ghost var before := State();
      var fn := ExistingFileFor(policies, key, alnum);
      var root := Validate(payload, fn);
      PutByCases(before, key, payload, alnum, fn, root);
      outcome := Refused;
      if root.Some? { outcome := Apply(key, fn, root.value); }
    }

    /** Writes one file and reloads; on success the user's open sessions are closed. */
    method Apply(key: string, fn: string, root: Json) returns (outcome: PutOutcome)
      modifies this, live
      ensures live == old(live) && outcome == if Load(old(disk)[fn := root]).Some? then Stored(fn) else ReloadFailed
      ensures State() == Write(old(State()), fn, root)
      ensures forall c :: c in live ==> c.State() == CutIf(old(c.State()), outcome.Stored? && Named(c.identity, key))
      ensures old(Current()) && SparesServed(old(policies), policies, key) ==> Current()
    {
      disk := disk[fn := root];
      var ok := ReloadPolicies();
      if !ok { return ReloadFailed; }
      var _ := DisconnectUser(key);
      return Stored(fn);
    }

    method DeletePolicy(key: string) returns (outcome: DeleteOutcome)
      modifies this, live
      ensures live == old(live)
      ensures State() == Delete(old(State()), key)
      ensures outcome == DeleteResult(old(State()), key)
      ensures forall c :: c in live ==> c.State() == CutIf(old(c.State()), outcome.Removed? && Named(c.identity, key))
      ensures old(Current()) && SparesServed(old(policies), policies, key) ==> Current()
      ensures old(Current() && State().Synced()) && key != "" ==> Current() && State().Synced()
    {
      ghost var before := State();
      var p := FirstClaimed(policies, key);
      DeleteByCases(before, key, p);
      outcome := NoPolicy;
      if p.Some? { outcome := Withdraw(key, p.value.sourceFile); }
      if before.Synced() && key != "" { DeleteSpares(before, key); }
    }

    /** Removes one file and reloads; on success the user's open sessions are closed. */
    method Withdraw(key: string, fn: string) returns (outcome: DeleteOutcome)
      modifies this, live
      ensures live == old(live) && outcome == if Load(old(disk) - {fn}).Some? then Removed else Failed
      ensures State() == Remove(old(State()), fn)
      ensures forall c :: c in live ==> c.State() == CutIf(old(c.State()), outcome.Removed? && Named(c.identity, key))
      ensures old(Current()) && SparesServed(old(policies), policies, key) ==> Current()
    {
      disk := disk - {fn};
      var ok := ReloadPolicies();
      if !ok { return Failed; }
      var _ := DisconnectUser(key);
      return Removed;
    }
  }
}
