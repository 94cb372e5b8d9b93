/** A client's entity subscription over a whole run: what it is sent builds, event by event,
    exactly the part of HA's world that it may read. */
module SubscriptionStreams {
  import opened Collections
  import opened JsonValues
  import opened Registry
  import opened Policies
  import opened Evaluator
  import opened Filters
  import opened EntityStream
  import opened Connections
  import opened Runs
  import opened Correlation

  predicate OnStream(e: Event, k: Key) {
    e.FromHa? && EventKey(e.msg) == Some(k)
  }

  predicate HasEvent(m: Json) {
    m.JObj? && Get(m.fields, "event").JObj?
  }

  function EventIn(m: Json): Fields
    requires HasEvent(m)
  {
    Get(m.fields, "event").fields
  }

  /** The events the client is relayed on it. */
  function ToClient(down: seq<Sent>, k: Key): seq<Fields> {
    if down == [] then []
    else
      var rest, sent := ToClient(down[..|down| - 1], k), down[|down| - 1];
      if sent.Relayed? && EventKey(sent.frame) == Some(k) && HasEvent(sent.frame)
      then rest + [EventIn(sent.frame)]
      else rest
  }

  /** HA holds an entity subscription under this id whenever the open session reads an event
      on it. */
  ghost predicate Streams(p: UserPolicy, es: seq<Event>, k: Key) {
    forall i :: 0 <= i < |es| && OnStream(es[i], k) && Run(p, es[..i]).open ==>
      SubOn(LedgerOf(p, es[..i]), k) == Some(Entities)
  }

  /** The event as pruned for this policy at this instant; `None` when nothing is relayed. */
  function PrunedAt(p: UserPolicy, v: View, m: Json): Option<Fields> {
    if !HasEvent(m) then None
    else
      match CompressedEvent(EventIn(m), ReadOf(p, v))
      case Raised => None
      case Done(pruned) => pruned
  }

  /** The open session reads the last event of the run, and it is on the stream. */
  predicate Heard(p: UserPolicy, es: seq<Event>, k: Key)
    requires es != []
  {
    OnStream(es[|es| - 1], k) && Run(p, es[..|es| - 1]).open
  }

  /** What the client is due on the subscription: each event the open session reads, pruned
      under the registry view of its own instant. */
  function DueOn(p: UserPolicy, es: seq<Event>, k: Key): seq<Fields> {
    if es == [] then []
    else
      var n := |es| - 1;
      var rest, e := DueOn(p, es[..n], k), es[n];
      if Heard(p, es, k) && PrunedAt(p, e.v, e.msg).Some?
      then rest + [PrunedAt(p, e.v, e.msg).value]
      else rest
  }

  lemma SnocToClient(down: seq<Sent>, sent: Sent, k: Key)
    ensures ToClient(down + [sent], k) ==
      if sent.Relayed? && EventKey(sent.frame) == Some(k) && HasEvent(sent.frame)
      then ToClient(down, k) + [EventIn(sent.frame)] else ToClient(down, k)
  {
    assert (down + [sent])[..|down|] == down;
  }

  lemma SayIsNotRelayed(down: seq<Sent>, id: Json, reply: Reply, k: Key)
    ensures ToClient(Say(down, id, reply), k) == ToClient(down, k)
  {
    match reply
    case Ack(result) => SnocToClient(down, Local(SuccessFrame(id, result)), k);
    case Refusal(reason) => SnocToClient(down, Local(ErrorFrame(id, reason)), k);
    case NothingVisible =>
      SnocToClient(down, Local(SuccessFrame(id, JNull)), k);
      SnocToClient(down + [Local(SuccessFrame(id, JNull))], Local(EmptyAddFrame(id)), k);
  }

  lemma ClientAddsNothing(p: UserPolicy, s: ConnState, e: Event, k: Key)
    requires e.FromClient?
    ensures ToClient(Step(p, s, e).down, k) == ToClient(s.down, k)
  {
    if s.open && IsCommand(e) {
      match Decide(p, e.v, e.tripped, e.msg.fields)
      case Answer(reply) => SayIsNotRelayed(s.down, Get(e.msg.fields, "id"), reply, k);
      case _ =>
    }
  }

  /** Whatever HA's message becomes on its way, its type and its id stay. */
  lemma RelayKeepsHeader(p: UserPolicy, v: View, s: ConnState, m: Json)
    ensures var down := HaStep(p, v, s, m).down;
      down == s.down || exists f :: down == s.down + [Relayed(f)] && EventKey(f) == EventKey(m)
  {
    if s.open && m.JObj? && HashKey(Get(m.fields, "id")).Some? {
      if Get(m.fields, "type") == JStr("result") {
        ResultKeepsHeader(p, v, s, HashKey(Get(m.fields, "id")).value, m.fields);
      } else if Get(m.fields, "type") == JStr("event") {
        EventKeepsHeader(p, v, s, HashKey(Get(m.fields, "id")).value, m.fields);
      }
    }
  }

  predicate SameKey(a: Fields, b: Fields) {
    Get(a, "type") == Get(b, "type") && Get(a, "id") == Get(b, "id")
  }

  lemma SameKeySameEvent(a: Fields, b: Fields)
    requires SameKey(a, b)
    ensures EventKey(JObj(a)) == EventKey(JObj(b))
  {}

  lemma ResultKeepsHeader(p: UserPolicy, v: View, s: ConnState, k: Key, msg: Fields)
    ensures var down := OnResult(p, v, s, k, msg).down;
      down == s.down || exists f :: down == s.down + [Relayed(f)] && EventKey(f) == EventKey(JObj(msg))
  {
    if k in s.pending && TransformResult(p, v, s.pending[k], msg).Done? {
      var out := TransformResult(p, v, s.pending[k], msg).value;
      assert SameKey(out, msg);
      SameKeySameEvent(out, msg);
      assert OnResult(p, v, s, k, msg).down == s.down + [Relayed(JObj(out))];
    } else if k !in s.pending {
      assert OnResult(p, v, s, k, msg).down == s.down + [Relayed(JObj(msg))];
    }
  }

  lemma EventKeepsHeader(p: UserPolicy, v: View, s: ConnState, k: Key, msg: Fields)
    ensures var down := OnEvent(p, v, s, k, msg).down;
      down == s.down || exists f :: down == s.down + [Relayed(f)] && EventKey(f) == EventKey(JObj(msg))
  {
    if k !in s.subs {
      assert OnEvent(p, v, s, k, msg).down == s.down + [Relayed(JObj(msg))];
    } else if RelayedEvent(p, v, s.subs[k], msg).Done? && RelayedEvent(p, v, s.subs[k], msg).value.Some? {
      var out := RelayedEvent(p, v, s.subs[k], msg).value.value;
      assert SameKey(out, msg);
      SameKeySameEvent(out, msg);
      assert OnEvent(p, v, s, k, msg).down == s.down + [Relayed(JObj(out))];
    }
  }

  lemma OthersAddNothing(p: UserPolicy, s: ConnState, e: Event, k: Key)
    requires !OnStream(e, k)
    ensures ToClient(Step(p, s, e).down, k) == ToClient(s.down, k)
  {
    match e
    case FromClient(_, _, _) => ClientAddsNothing(p, s, e, k);
    case Disconnected =>
    case FromHa(v, m) =>
      RelayKeepsHeader(p, v, s, m);
      var s' := HaStep(p, v, s, m);
      if s'.down != s.down {
        var f :| s'.down == s.down + [Relayed(f)] && EventKey(f) == EventKey(m);
        SnocToClient(s.down, Relayed(f), k);
      }
  }

  lemma StreamAddsPruned(p: UserPolicy, v: View, s: ConnState, m: Json, k: Key)
    requires s.open && EventKey(m) == Some(k) && Lookup(s.subs, k) == Some(Entities)
    ensures ToClient(HaStep(p, v, s, m).down, k) ==
      match PrunedAt(p, v, m)
      case None => ToClient(s.down, k)
      case Some(pruned) => ToClient(s.down, k) + [pruned]
  {
    assert HaStep(p, v, s, m) == OnEvent(p, v, s, k, m.fields);
    match PrunedAt(p, v, m)
    case None =>
    case Some(pruned) =>
      var out := m.fields["event" := JObj(pruned)];
      assert SameKey(out, m.fields);
      SameKeySameEvent(out, m.fields);
      assert OnEvent(p, v, s, k, m.fields).down == s.down + [Relayed(JObj(out))];
      SnocToClient(s.down, Relayed(JObj(out)), k);
  }

  lemma StreamsBefore(p: UserPolicy, es: seq<Event>, k: Key)
    requires es != [] && Streams(p, es, k)
    ensures Streams(p, es[..|es| - 1], k)
    ensures var n := |es| - 1;
      OnStream(es[n], k) && Run(p, es[..n]).open ==> SubOn(LedgerOf(p, es[..n]), k) == Some(Entities)
  {
    var front := es[..|es| - 1];
    forall i | 0 <= i < |front| && OnStream(front[i], k) && Run(p, front[..i]).open
      ensures SubOn(LedgerOf(p, front[..i]), k) == Some(Entities)
    {
      assert front[..i] == es[..i];
    }
  }

  /** The session handles an event on the stream: pruned if open, ignored otherwise. */
  lemma StreamStep(p: UserPolicy, s: ConnState, e: Event, k: Key)
    requires OnStream(e, k) && (s.open ==> Lookup(s.subs, k) == Some(Entities))
    ensures ToClient(Step(p, s, e).down, k) ==
      if s.open && PrunedAt(p, e.v, e.msg).Some?
      then ToClient(s.down, k) + [PrunedAt(p, e.v, e.msg).value]
      else ToClient(s.down, k)
  {
    if s.open { StreamAddsPruned(p, e.v, s, e.msg, k); }
  }

  /** The client is relayed exactly the pruned stream, frame for frame. */
  lemma {:induction false} RelayedIsPruned(p: UserPolicy, es: seq<Event>, k: Key)
    requires IdsOnce(es) && Streams(p, es, k)
    ensures ToClient(Run(p, es).down, k) == DueOn(p, es, k)
  {
    if es == [] {
    } else {
      var n := |es| - 1;
      var s := Run(p, es[..n]);
      StreamsBefore(p, es, k);
      RelayedIsPruned(p, es[..n], k);
      if OnStream(es[n], k) {
        RightFilters(p, es[..n], k);
        StreamStep(p, s, es[n], k);
      } else {
        OthersAddNothing(p, s, es[n], k);
      }
    }
  }

  // ---- under one view ----

  /** The message has something to say: an object, and only names among the removed. */
  predicate Speaks(m: Json) {
    HasEvent(m) && !PartsOf(EventIn(m)).Poisoned()
  }

  /** The events of the stream that the open session reads and that say something. */
  function FromHome(p: UserPolicy, es: seq<Event>, k: Key): seq<Fields> {
    if es == [] then []
    else
      var n := |es| - 1;
      var rest := FromHome(p, es[..n], k);
      if Heard(p, es, k) && Speaks(es[n].msg) then rest + [EventIn(es[n].msg)] else rest
  }

  lemma OnlySpeakingIsPruned(p: UserPolicy, v: View, m: Json)
    ensures !Speaks(m) ==> PrunedAt(p, v, m).None?
    ensures Speaks(m) ==> CompressedEvent(EventIn(m), ReadOf(p, v)) == Done(PrunedAt(p, v, m))
  {}

  lemma {:induction false} DueIsPruned(p: UserPolicy, es: seq<Event>, k: Key, v: View)
    requires forall e :: e in es && OnStream(e, k) ==> e.v == v
    ensures AllDone(FromHome(p, es, k), ReadOf(p, v))
    ensures DueOn(p, es, k) == Pruned(FromHome(p, es, k), ReadOf(p, v))
  {
    if es == [] {
    } else {
      var n := |es| - 1;
      assert es[n] in es;
      DueIsPruned(p, es[..n], k, v);
      if Heard(p, es, k) {
        OnlySpeakingIsPruned(p, v, es[n].msg);
        if Speaks(es[n].msg) { PrunedSnoc(FromHome(p, es[..n], k), EventIn(es[n].msg), ReadOf(p, v)); }
      }
    }
  }

  /** On any run, whatever else happens on the session, while the registry view stays: folding
      what the client was relayed on its subscription, from the readable part of a world,
      gives the readable part of what HA's own stream makes of that world. */
  lemma ClientSeesFilteredWorld(p: UserPolicy, es: seq<Event>, k: Key, v: View, w: World, merge: Merge)
    requires IdsOnce(es) && Streams(p, es, k)
    requires forall e :: e in es && OnStream(e, k) ==> e.v == v
    ensures Fold(Restrict(w, ReadOf(p, v)), ToClient(Run(p, es).down, k), merge) ==
            Restrict(Fold(w, FromHome(p, es, k), merge), ReadOf(p, v))
  {
    RelayedIsPruned(p, es, k);
    DueIsPruned(p, es, k, v);
    FilteredStreamIsFilteredWorld(w, FromHome(p, es, k), merge, ReadOf(p, v));
  }

  /** The second filter never bites: on a stream HA limits to the ids of the frame it was
      sent, every event is relayed as it is while the view stays what it was. */
  lemma RewrittenStreamIsUntouched(p: UserPolicy, v: View, msg: Fields, ids: Json, event: Fields)
    requires NarrowedTo(p, v, msg, ids) && WellShaped(event) && Within(PartsOf(event), StringsOf(ids.items))
    ensures CompressedEvent(event, ReadOf(p, v)) == Done(Some(event))
  {
    EnumerationRefinesPredicate(p, v);
    SecondFilterDropsNothing(event, StringsOf(ids.items), ReadOf(p, v));
  }
}
