/** What a consumer of `subscribe_entities` events ends up believing, and why pruning
    the stream is as good as hiding the entities in the first place. */
module EntityStream {
  import opened Collections
  import opened JsonValues
  import opened Filters

  /** Entity id -> state, as the consumer keeps it. */
  type World = map<string, Json>

  /** How a change is merged into the state it changes; any function will do. */
  type Merge = (Json, Json) -> Json

  /** One event: additions, then removals, then changes to entities still present. */
  predicate Present(w: World, p: Parts, e: string) {
    (e in w || e in p.added) && JStr(e) !in p.removed
  }

  function StateOf(w: World, p: Parts, merge: Merge, e: string): Json
    requires Present(w, p, e)
  {
    var s := if e in p.added then p.added[e] else w[e];
    if e in p.changed then merge(s, p.changed[e]) else s
  }

  function ApplyParts(w: World, p: Parts, merge: Merge): World {
    map e | e in w.Keys + p.added.Keys && Present(w, p, e) :: StateOf(w, p, merge, e)
  }

  function Apply(w: World, event: Fields, merge: Merge): World {
    ApplyParts(w, PartsOf(event), merge)
  }

  function Fold(w: World, events: seq<Fields>, merge: Merge): World {
    if events == [] then w
    else Apply(Fold(w, events[..|events| - 1], merge), events[|events| - 1], merge)
  }

  /** The relayed stream: pruned to nothing means not relayed. */
  function Pruned(events: seq<Fields>, allowed: string -> bool): seq<Fields>
    requires forall ev :: ev in events ==> CompressedEvent(ev, allowed).Done?
  {
    if events == [] then []
    else
      var n := |events| - 1;
      assert events[n] in events;
      Pruned(events[..n], allowed) +
        match CompressedEvent(events[n], allowed).value { case None => [] case Some(ev) => [ev] }
  }

  lemma FilteredParts(w: World, p: Parts, merge: Merge, allowed: string -> bool)
    ensures Restrict(ApplyParts(w, p, merge), allowed) == ApplyParts(Restrict(w, allowed), p.Filtered(allowed), merge)
  {
    var w', p' := Restrict(w, allowed), p.Filtered(allowed);
    forall e
      ensures Present(w', p', e) <==> allowed(e) && Present(w, p, e)
      ensures Present(w', p', e) ==> StateOf(w', p', merge, e) == StateOf(w, p, merge, e)
    {
      if allowed(e) {
        assert NameIn(allowed)(JStr(e));
      }
    }
    var full, some := Restrict(ApplyParts(w, p, merge), allowed), ApplyParts(w', p', merge);
    assert full.Keys == some.Keys;
  }

  lemma PrunedStep(w: World, event: Fields, merge: Merge, allowed: string -> bool)
    requires CompressedEvent(event, allowed).Done?
    ensures Restrict(Apply(w, event, merge), allowed) ==
      match CompressedEvent(event, allowed).value
      case None => Restrict(w, allowed)
      case Some(ev) => Apply(Restrict(w, allowed), ev, merge)
  {
    var kept := PartsOf(event).Filtered(allowed);
    FilteredParts(w, PartsOf(event), merge, allowed);
    if kept == NOTHING {
      assert ApplyParts(Restrict(w, allowed), NOTHING, merge) == Restrict(w, allowed);
    } else {
      PartsOfEvent(kept);
    }
  }

  ghost predicate AllDone(events: seq<Fields>, allowed: string -> bool) {
    forall ev :: ev in events ==> CompressedEvent(ev, allowed).Done?
  }

  lemma PrunedSnoc(events: seq<Fields>, ev: Fields, allowed: string -> bool)
    requires AllDone(events, allowed) && CompressedEvent(ev, allowed).Done?
    ensures AllDone(events + [ev], allowed)
    ensures Pruned(events + [ev], allowed) ==
      match CompressedEvent(ev, allowed).value
      case None => Pruned(events, allowed)
      case Some(pruned) => Pruned(events, allowed) + [pruned]
  {
    assert (events + [ev])[..|events|] == events;
  }

  lemma FoldSnoc(w: World, events: seq<Fields>, ev: Fields, merge: Merge)
    ensures Fold(w, events + [ev], merge) == Apply(Fold(w, events, merge), ev, merge)
  {
    assert (events + [ev])[..|events|] == events;
  }

  /** The filtered stream shows the filtered world. */
  ghost predicate ShowsFiltered(w: World, events: seq<Fields>, merge: Merge, allowed: string -> bool)
    requires AllDone(events, allowed)
  {
    Fold(Restrict(w, allowed), Pruned(events, allowed), merge) == Restrict(Fold(w, events, merge), allowed)
  }

  lemma FilteredSnoc(w: World, events: seq<Fields>, ev: Fields, merge: Merge, allowed: string -> bool)
    requires AllDone(events, allowed) && CompressedEvent(ev, allowed).Done? && ShowsFiltered(w, events, merge, allowed)
    ensures AllDone(events + [ev], allowed) && ShowsFiltered(w, events + [ev], merge, allowed)
  {
    PrunedStep(Fold(w, events, merge), ev, merge, allowed);
    PrunedSnoc(events, ev, allowed);
    FoldSnoc(w, events, ev, merge);
    if CompressedEvent(ev, allowed).value.Some? {
      FoldSnoc(Restrict(w, allowed), Pruned(events, allowed), CompressedEvent(ev, allowed).value.value, merge);
    }
  }

  /** Folding the filtered stream from the restricted start gives the restriction of
      folding the unfiltered stream: the user sees exactly the filtered world. */
  lemma {:induction false} FilteredStreamIsFilteredWorld(w: World, events: seq<Fields>, merge: Merge,
                                                         allowed: string -> bool)
    requires AllDone(events, allowed)
    ensures Fold(Restrict(w, allowed), Pruned(events, allowed), merge) == Restrict(Fold(w, events, merge), allowed)
  {
    if events == [] {
    } else {
      var n := |events| - 1;
      assert events == events[..n] + [events[n]] && events[n] in events;
      FilteredStreamIsFilteredWorld(w, events[..n], merge, allowed);
      FilteredSnoc(w, events[..n], events[n], merge, allowed);
    }
  }

  /** Filtering by `a` and then by `b` is filtering once by both. */
  lemma FilterTwice(event: Fields, a: string -> bool, b: string -> bool)
    requires CompressedEvent(event, a).Done?
    ensures CompressedEvent(event, e => a(e) && b(e)) ==
      match CompressedEvent(event, a).value
      case None => Done(None)
      case Some(ev) => CompressedEvent(ev, b)
  {
    var both := e => a(e) && b(e);
    var p := PartsOf(event);
    FilterPartsTwice(p, a, b, both);
    PartsOfEvent(p.Filtered(a));
    assert !p.Filtered(a).Poisoned();
    if p.Filtered(a) == NOTHING {
      assert NOTHING.Filtered(b) == NOTHING;
    }
  }

  lemma FilterPartsTwice(p: Parts, a: string -> bool, b: string -> bool, both: string -> bool)
    requires forall e :: both(e) == (a(e) && b(e))
    ensures p.Filtered(a).Filtered(b) == p.Filtered(both)
  {
    KeepKeep(p.removed, NameIn(both), NameIn(a));
    KeepAgree(Keep(p.removed, NameIn(a)), NameIn(both), NameIn(b));
    assert Restrict(Restrict(p.added, a), b) == Restrict(p.added, both);
    assert Restrict(Restrict(p.changed, a), b) == Restrict(p.changed, both);
  }

  /** An event HA sends for a subscription: the known sections and nothing else, none
      of them empty, and only names among the removed. */
  ghost predicate WellShaped(event: Fields) {
    event != map[] && event == EventOf(PartsOf(event)) && !PartsOf(event).Poisoned()
  }

  /** Every entity the event names is among `ids`. */
  ghost predicate Within(p: Parts, ids: set<string>) {
    p.added.Keys <= ids && p.changed.Keys <= ids && forall e :: JStr(e) in p.removed ==> e in ids
  }

  /** The second filter is defence in depth: on a stream HA already limits to the
      requested ids, all of them allowed, it drops nothing. */
  lemma SecondFilterDropsNothing(event: Fields, ids: set<string>, allowed: string -> bool)
    requires WellShaped(event) && Within(PartsOf(event), ids)
    requires forall e :: e in ids ==> allowed(e)
    ensures CompressedEvent(event, allowed) == Done(Some(event))
  {
    var p := PartsOf(event);
    assert Restrict(p.added, allowed) == p.added;
    assert Restrict(p.changed, allowed) == p.changed;
    forall x | x in p.removed
      ensures NameIn(allowed)(x)
    {
      assert x == JStr(x.s);
    }
    KeepAll(p.removed, NameIn(allowed));
    PartsOfEvent(p);
  }
}
