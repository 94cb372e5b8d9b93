/** The gateway's objects together: the gateway, its registry and trip switch and the sessions
    it holds make exactly the steps of the system the whole-gateway theorems are about. */
module RunningGateway {
  import opened JsonValues
  import opened Registry
  import opened Policies
  import opened PolicyStores
  import opened PolicyAdmin
  import opened Connections
  import opened Session
  import opened GatewaySystem
  import Gateways

  lemma AddedValues<V>(m: map<SessionId, V>, k: SessionId, v: V)
    requires k !in m
    ensures m.Values <= m[k := v].Values && v in m[k := v].Values
  {
    forall x | x in m.Values
      ensures x in m[k := v].Values
    {
      var j :| j in m && m[j] == x;
      assert m[k := v][j] == x;
    }
    assert m[k := v][k] == v;
  }

  /** Closing a closed session changes nothing. */
  lemma ClosedStays(live: Live)
    requires !live.conn.open
    ensures forall cut :: GatewaySystem.CutIf(live, cut) == live
  {}

  class Running {
    const gateway: Gateways.Gateway
    var now: real
    var fileExists: bool
    var sessions: map<SessionId, Connection>

    constructor (gateway: Gateways.Gateway, now: real, fileExists: bool)
      requires gateway.live == {} && gateway.trip.lastCheck == 0.0 && !gateway.trip.cached
      requires gateway.registry.fetchedAt == 0.0
      requires gateway.registry.entityArea == map[] && gateway.registry.entityDevice == map[]
      ensures this.gateway == gateway && Valid() && State() == Start(now, fileExists, gateway.State())
    {
      this.gateway, this.now, this.fileExists, sessions := gateway, now, fileExists, map[];
    }

    function Fixed(): Config {
      Config(gateway.trip.interval, gateway.registry.staleMax, gateway.alnum)
    }

    /** The sessions are objects of their own, on the gateway's registry and switch; those it
        no longer holds are closed. */
    ghost predicate Valid()
      reads this, gateway, sessions.Values
    {
      && (forall i :: i in sessions ==> sessions[i].registry == gateway.registry && sessions[i].trip == gateway.trip)
      && (forall i, j :: i in sessions && j in sessions && sessions[i] == sessions[j] ==> i == j)
      && (forall i :: i in sessions && sessions[i] !in gateway.live ==> !sessions[i].open)
      && gateway.live <= sessions.Values
    }

    function LiveAt(i: SessionId): Live
      requires i in sessions
      reads this, sessions.Values
    {
      Live(sessions[i].identity, sessions[i].policy, sessions[i].State())
    }

    function State(): System
      reads this, gateway, gateway.registry, gateway.trip, sessions.Values
    {
      System(now, fileExists, gateway.trip.State(),
             Snapshot(gateway.registry.entityArea, gateway.registry.entityDevice), gateway.registry.fetchedAt,
             gateway.State(), map i | i in sessions :: LiveAt(i))
    }

    method Wait(elapsed: real)
      requires Valid()
      modifies this`now
      ensures Valid() && State() == Next(Fixed(), old(State()), Tick(elapsed))
    {
      ghost var before := State();
      if elapsed >= 0.0 { now := now + elapsed; }
      assert State().sessions == before.sessions;
      IsNextOutside(Fixed(), before, Tick(elapsed), State());
    }

    method RefreshRegistry(entities: seq<Json>, devices: seq<Json>) returns (ok: bool)
      requires Valid()
      requires (forall e :: e in entities ==> TypedEntity(e)) && (forall d :: d in devices ==> TypedDevice(d))
      modifies gateway.registry
      ensures Valid() && ok == DeviceAreas(devices).Some?
      ensures State() ==
        if ok then Next(Fixed(), old(State()), Refresh(Index(entities, DeviceAreas(devices).value))) else old(State())
    {
      ghost var before := State();
      ok := gateway.registry.Refresh(entities, devices, now);
      assert State().sessions == before.sessions;
      if ok { IsNextOutside(Fixed(), before, Refresh(Index(entities, DeviceAreas(devices).value)), State()); }
    }

    method TripNow()
      requires Valid()
      modifies this`fileExists, gateway.trip
      ensures Valid() && State() == Next(Fixed(), old(State()), TripGateway)
    {
      ghost var before := State();
      fileExists := true;
      gateway.trip.Trip();
      assert State().sessions == before.sessions;
      IsNextOutside(Fixed(), before, TripGateway, State());
    }

    method SetFile(exists_: bool)
      requires Valid()
      modifies this`fileExists
      ensures Valid() && State() == Next(Fixed(), old(State()), if exists_ then FileAppears else FileRemoved)
    {
      ghost var before := State();
      fileExists := exists_;
      assert State().sessions == before.sessions;
      IsNextOutside(Fixed(), before, if exists_ then FileAppears else FileRemoved, State());
    }

    method IsTripped() returns (r: bool)
      requires Valid()
      modifies gateway.trip
      ensures Valid() && State() == Next(Fixed(), old(State()), CheckElsewhere)
      ensures r == Check(Fixed(), old(State())).cached
    {
      ghost var before := State();
      r := gateway.trip.IsTripped(now, fileExists);
      assert State().sessions == before.sessions;
      IsNextOutside(Fixed(), before, CheckElsewhere, State());
    }

    /** Has the gateway open a session and holds it. */
    method Hold(i: SessionId, identity: Identity)
      requires Valid() && i !in sessions && Find(gateway.policies, identity).Some?
      modifies this`sessions, gateway
      ensures Valid() && gateway.State() == old(gateway.State())
      ensures sessions.Keys == old(sessions.Keys) + {i}
      ensures LiveAt(i) == Live(identity, Find(gateway.policies, identity).value, START)
      ensures forall j :: j in old(sessions) ==> LiveAt(j) == old(LiveAt(j))
    {
      var c := gateway.RegisterWs(identity);
      AddedValues(sessions, i, c.value);
      sessions := sessions[i := c.value];
    }

    method HoldInState(i: SessionId, identity: Identity)
      requires Valid() && i !in sessions && Find(gateway.policies, identity).Some?
      modifies this`sessions, gateway
      ensures Valid() && SameOutside(old(State()), State())
      ensures State().rules == old(State()).rules && State().trip == old(State()).trip
      ensures State().sessions.Keys == old(State()).sessions.Keys + {i}
      ensures State().sessions[i] == Live(identity, Find(State().rules.store, identity).value, START)
      ensures forall j :: j in old(State()).sessions ==> State().sessions[j] == old(State()).sessions[j]
    {
      Hold(i, identity);
    }

    method AcceptNew(i: SessionId, identity: Identity)
      requires Valid() && i !in sessions && Find(gateway.policies, identity).Some?
      modifies this`sessions, gateway
      ensures Valid() && State() == Next(Fixed(), old(State()), Register(i, identity))
    {
      ghost var before := State();
      HoldInState(i, identity);
      IsNextRegistered(Fixed(), before, i, identity, State());
    }

    method Accept(i: SessionId, identity: Identity)
      requires Valid()
      modifies this`sessions, gateway
      ensures Valid() && State() == Next(Fixed(), old(State()), Register(i, identity))
    {
      if i in sessions || Find(gateway.policies, identity).None? {
        NobodyIsRegistered(Fixed(), State(), i, identity);
      } else {
        AcceptNew(i, identity);
      }
    }

    method CloseSession(i: SessionId)
      requires Valid() && i in sessions
      modifies gateway, sessions.Values
      ensures Valid() && OneSession(old(State()), State(), i) && State().trip == old(State().trip)
      ensures LiveAt(i) == GatewaySystem.CutIf(old(LiveAt(i)), true)
    {
      sessions[i].CloseNow();
      gateway.UnregisterWs(sessions[i]);
    }

    method Lose(i: SessionId)
      requires Valid()
      modifies gateway, sessions.Values
      ensures Valid() && State() == Next(Fixed(), old(State()), HangUp(i))
    {
      ghost var before := State();
      if i in sessions {
        CloseSession(i);
        CloseIsNext(Fixed(), before, State(), i);
      } else {
        NothingIsNext(Fixed(), before, HangUp(i));
      }
    }

    /** Routes a message of the client on its session; nothing else changes but the switch. */
    method RouteFromClient(i: SessionId, m: Fields)
      requires Valid() && i in sessions && sessions[i].open
      modifies gateway.trip, sessions.Values
      ensures Valid() && OneSession(old(State()), State(), i)
      ensures State().trip == if WellFormed(m) then Check(Fixed(), old(State())) else old(State()).trip
      ensures LiveAt(i) == old(LiveAt(i)).(conn :=
        ClientStep(old(LiveAt(i)).policy, old(State()).View(Fixed().staleMax), State().trip.cached,
                   old(LiveAt(i)).conn, JObj(m)))
    {
      sessions[i].RouteClientMsg(m, now, fileExists);
    }

    method FromClient(i: SessionId, m: Json)
      requires Valid()
      modifies gateway.trip, sessions.Values
      ensures Valid() && State() == Next(Fixed(), old(State()), ClientMessage(i, m))
    {
      ghost var before := State();
      if i in sessions && sessions[i].open && m.JObj? {
        RouteFromClient(i, m.fields);
        ClientIsNext(Fixed(), before, State(), i, m.fields);
      } else {
        NothingIsNext(Fixed(), before, ClientMessage(i, m));
      }
    }

    method RouteFromHa(i: SessionId, m: Json)
      requires Valid() && i in sessions && sessions[i].open
      modifies sessions.Values
      ensures Valid() && OneSession(old(State()), State(), i) && State().trip == old(State().trip)
      ensures LiveAt(i) == old(LiveAt(i)).(conn :=
        HaStep(old(LiveAt(i)).policy, old(State()).View(Fixed().staleMax), old(LiveAt(i)).conn, m))
    {
      if m.JObj? {
        sessions[i].RouteHaMsg(m.fields, now);
      } else {
        sessions[i].SendRelayed(m);
      }
    }

    method FromHa(i: SessionId, m: Json)
      requires Valid()
      modifies sessions.Values
      ensures Valid() && State() == Next(Fixed(), old(State()), HaMessage(i, m))
    {
      ghost var before := State();
      if i in sessions && sessions[i].open {
        RouteFromHa(i, m);
        HaIsNext(Fixed(), before, State(), i, m);
      } else {
        NothingIsNext(Fixed(), before, HaMessage(i, m));
      }
    }

    /** The gateway closes the sessions it holds of the users the key names; those it does
        not hold were closed already. */
    method ChangePolicy(key: string, payload: Json) returns (cut: bool)
      requires Valid()
      modifies gateway, gateway.live
      ensures Valid() && SameOutside(old(State()), State()) && State().trip == old(State().trip)
      ensures State().rules == PolicyAdmin.Put(old(State()).rules, key, payload, gateway.alnum)
      ensures cut == PutResult(old(State()).rules, key, payload, gateway.alnum).Stored?
      ensures sessions == old(sessions) && forall i :: i in sessions ==>
        LiveAt(i) == GatewaySystem.CutIf(old(LiveAt(i)), cut && PolicyChanges.Named(sessions[i].identity, key))
    {
      ghost var before := State();
      var outcome := gateway.PutPolicy(key, payload);
      cut := outcome.Stored?;
      forall i | i in sessions
        ensures LiveAt(i) ==
          GatewaySystem.CutIf(before.sessions[i], cut && PolicyChanges.Named(sessions[i].identity, key))
      {
        if sessions[i] !in gateway.live { ClosedStays(before.sessions[i]); }
      }
    }

    method Put(key: string, payload: Json)
      requires Valid()
      modifies gateway, gateway.live
      ensures Valid() && State() == Next(Fixed(), old(State()), PutPolicy(key, payload))
    {
      ghost var before := State();
      var cut := ChangePolicy(key, payload);
      IsNextChanged(Fixed(), before, PutPolicy(key, payload), State());
    }

    method RevokePolicy(key: string) returns (cut: bool)
      requires Valid()
      modifies gateway, gateway.live
      ensures Valid() && SameOutside(old(State()), State()) && State().trip == old(State().trip)
      ensures State().rules == PolicyAdmin.Delete(old(State()).rules, key)
      ensures cut == DeleteResult(old(State()).rules, key).Removed?
      ensures sessions == old(sessions) && forall i :: i in sessions ==>
        LiveAt(i) == GatewaySystem.CutIf(old(LiveAt(i)), cut && PolicyChanges.Named(sessions[i].identity, key))
    {
      ghost var before := State();
      var outcome := gateway.DeletePolicy(key);
      cut := outcome.Removed?;
      forall i | i in sessions
        ensures LiveAt(i) ==
          GatewaySystem.CutIf(before.sessions[i], cut && PolicyChanges.Named(sessions[i].identity, key))
      {
        if sessions[i] !in gateway.live { ClosedStays(before.sessions[i]); }
      }
    }

    method Delete(key: string)
      requires Valid()
      modifies gateway, gateway.live
      ensures Valid() && State() == Next(Fixed(), old(State()), DeletePolicy(key))
    {
      ghost var before := State();
      var cut := RevokePolicy(key);
      IsNextChanged(Fixed(), before, DeletePolicy(key), State());
    }
  }
}
