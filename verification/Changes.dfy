/** Whom a change of policy reaches. It closes the sessions of the user its key names; these
    are the lemmas that say when that is enough. */
module PolicyChanges {
  import opened Collections
  import opened JsonValues
  import opened Policies
  import opened PolicyStores
  import opened PolicyAdmin
  import Evaluator

  /** The session belongs to the user the admin addresses by this key. */
  predicate Named(i: Identity, key: string) {
    i.userId == key || i.name == key
  }

  /** The policy can serve only users the key names; an empty id serves nobody who has one. */
  predicate Only(p: UserPolicy, key: string) {
    match p.matchUserId
    case Some(id) => id == key || id == ""
    case None => p.matchUserName == Some(key)
  }

  /** The two stores differ at most in policies for users the key names. */
  ghost predicate OnlyChanges(a: seq<UserPolicy>, b: seq<UserPolicy>, key: string) {
    forall p :: (p in a) != (p in b) ==> Only(p, key)
  }

  /** Whoever the key does not name is served the same by both stores. */
  ghost predicate Spares(a: seq<UserPolicy>, b: seq<UserPolicy>, key: string) {
    forall i: Identity :: i.userId != "" && !Named(i, key) ==> Find(b, i) == Find(a, i)
  }

  lemma MatchIsNotOnly(p: UserPolicy, i: Identity, key: string)
    requires i.userId != "" && !Named(i, key) && p.Matches(i)
    ensures !Only(p, key)
  {}

  lemma FoundInBoth(a: seq<UserPolicy>, b: seq<UserPolicy>, key: string, i: Identity)
    requires Good(a) && Good(b) && OnlyChanges(a, b, key) && i.userId != "" && !Named(i, key)
    requires Find(a, i).Some?
    ensures Find(b, i) == Find(a, i)
  {
    FindIsEligible(a, i);
    var p := Find(a, i).value;
    MatchIsNotOnly(p, i, key);
    forall q | q in b && ById(q, i)
      ensures q in a
    {
      MatchIsNotOnly(q, i, key);
    }
    assert Eligible(b, p, i);
    FindExact(b, i, p);
  }

  lemma OnlyChangesSpares(a: seq<UserPolicy>, b: seq<UserPolicy>, key: string)
    requires Good(a) && Good(b) && OnlyChanges(a, b, key)
    ensures Spares(a, b, key)
  {
    forall i: Identity | i.userId != "" && !Named(i, key)
      ensures Find(b, i) == Find(a, i)
    {
      if Find(a, i).Some? {
        FoundInBoth(a, b, key, i);
      } else if Find(b, i).Some? {
        FoundInBoth(b, a, key, i);
      }
    }
  }

  /** A string that is in none of these. */
  lemma Unused(s: set<string>) returns (x: string)
    ensures x !in s
  {
    var n := Evaluator.LongerThanAll(s);
    x := seq(n, i => 'x');
  }

  /** A user the policy is found for, whom the key does not name. */
  lemma SomeoneServed(a: seq<UserPolicy>, p: UserPolicy, key: string) returns (i: Identity)
    requires p in a && OneMatcher(p) && !Only(p, key)
    ensures i.userId != "" && !Named(i, key) && Eligible(a, p, i)
  {
    var ids := set q | q in a && q.matchUserId.Some? :: q.matchUserId.value;
    var id := Unused(ids + {key, ""});
    var name := Unused({key});
    if p.matchUserId.Some? {
      i := Identity(p.matchUserId.value, name, false, false);
    } else {
      i := Identity(id, p.matchUserName.value, false, false);
      assert forall q :: q in a ==> !ById(q, i);
    }
  }

  /** A policy that is only in one store, for a user the key does not name, tells them apart. */
  lemma TellsApart(a: seq<UserPolicy>, b: seq<UserPolicy>, p: UserPolicy, key: string) returns (i: Identity)
    requires Good(a) && p in a && p !in b && !Only(p, key)
    ensures i.userId != "" && !Named(i, key) && Find(a, i) == Some(p) != Find(b, i)
  {
    i := SomeoneServed(a, p, key);
    FindExact(a, i, p);
    FindIsEligible(b, i);
  }

  /** For any two stores that loaded: closing the sessions of the users the key names is
      enough if and only if the stores differ at most in policies for those users. */
  lemma SparesExactly(a: seq<UserPolicy>, b: seq<UserPolicy>, key: string)
    requires Good(a) && Good(b)
    ensures Spares(a, b, key) <==> OnlyChanges(a, b, key)
  {
    if OnlyChanges(a, b, key) {
      OnlyChangesSpares(a, b, key);
    } else {
      var p :| (p in a) != (p in b) && !Only(p, key);
      var i;
      if p in a { i := TellsApart(a, b, p, key); } else { i := TellsApart(b, a, p, key); }
    }
  }

  // ---- whose session goes stale ----

  /** A policy that serves by id, or by name, somebody the key does not name. */
  predicate ForeignId(p: UserPolicy, key: string) {
    p.matchUserId.Some? && !Only(p, key)
  }

  predicate ForeignName(p: UserPolicy, key: string) {
    p.matchUserId.None? && !Only(p, key)
  }

  /** Whoever has a policy, and so may have a session, and is not named by the key, keeps it. */
  ghost predicate SparesServed(a: seq<UserPolicy>, b: seq<UserPolicy>, key: string) {
    forall i: Identity :: i.userId != "" && !Named(i, key) && Find(a, i).Some? ==> Find(b, i) == Find(a, i)
  }

  /** No policy that goes was for anybody else; and no new one takes by id a user whom the
      name alone used to serve. */
  ghost predicate NoneStranded(a: seq<UserPolicy>, b: seq<UserPolicy>, key: string) {
    && (forall p :: p in a && p !in b ==> Only(p, key))
    && ((exists p :: p in b && p !in a && ForeignId(p, key)) ==> forall q :: q in a ==> !ForeignName(q, key))
  }

  lemma KeepsPolicy(a: seq<UserPolicy>, b: seq<UserPolicy>, key: string, i: Identity)
    requires Good(a) && Good(b) && NoneStranded(a, b, key)
    requires i.userId != "" && !Named(i, key) && Find(a, i).Some?
    ensures Find(b, i) == Find(a, i)
  {
    FindIsEligible(a, i);
    var p := Find(a, i).value;
    MatchIsNotOnly(p, i, key);
    forall q | q in b && ById(q, i)
      ensures q in a || ById(p, i)
    {
      MatchIsNotOnly(q, i, key);
    }
    assert Eligible(b, p, i);
    FindExact(b, i, p);
  }

  /** A new policy by id takes a user from the policy that served them by name. */
  lemma TakenById(a: seq<UserPolicy>, b: seq<UserPolicy>, p: UserPolicy, q: UserPolicy, key: string)
    returns (i: Identity)
    requires Good(a) && Good(b) && p in b && p !in a && q in a && ForeignId(p, key) && ForeignName(q, key)
    requires forall r :: r in a && r !in b ==> Only(r, key)
    ensures i.userId != "" && !Named(i, key) && Find(a, i).Some? && Find(b, i) != Find(a, i)
  {
    assert OneMatcher(q);
    i := Identity(p.matchUserId.value, q.matchUserName.value, false, false);
    forall r | r in a
      ensures !ById(r, i)
    {
      if r in b && ById(r, i) { MembersApart(b, r, p); }
    }
    assert Eligible(a, q, i) && Eligible(b, p, i);
    FindExact(a, i, q);
    FindExact(b, i, p);
  }

  /** For any two stores that loaded: no open session can be left behind if and only if this
      holds of the policies that went and came. */
  lemma StrandsExactly(a: seq<UserPolicy>, b: seq<UserPolicy>, key: string)
    requires Good(a) && Good(b)
    ensures SparesServed(a, b, key) <==> NoneStranded(a, b, key)
  {
    if NoneStranded(a, b, key) {
      forall i: Identity | i.userId != "" && !Named(i, key) && Find(a, i).Some?
        ensures Find(b, i) == Find(a, i)
      {
        KeepsPolicy(a, b, key, i);
      }
    } else if p :| p in a && p !in b && !Only(p, key) {
      var i := TellsApart(a, b, p, key);
    } else {
      var p :| p in b && p !in a && ForeignId(p, key);
      var q :| q in a && ForeignName(q, key);
      var i := TakenById(a, b, p, q, key);
    }
  }

  // ---- PUT ----

  /** What a stored PUT changes is for the key's users alone: nothing changes at all, or the
      new policy and the one it replaces are for them. */
  ghost predicate Confined(s: State, key: string, fn: string, written: UserPolicy) {
    written in s.store ||
    (Only(written, key) && forall p :: p in s.store && p.sourceFile == fn ==> Only(p, key))
  }

  lemma ConfinedExactly(s: State, b: seq<UserPolicy>, key: string, fn: string, written: UserPolicy)
    requires s.Synced() && Replaced(s.store, b, fn, Some(written)) && written.sourceFile == fn
    ensures OnlyChanges(s.store, b, key) <==> Confined(s, key, fn, written)
  {
    if written in s.store {
      SameAsBefore(s, b, fn, written);
    } else if OnlyChanges(s.store, b, key) {
      assert written in b;
      forall p | p in s.store && p.sourceFile == fn
        ensures Only(p, key)
      {
        assert p !in b;
      }
    }
  }

  /** The exact condition on a stored PUT, checked before it is sent. The other users whose
      sessions it leaves open are served the same, whoever they are, if and only if the
      payload is about the key's user and the file is nobody else's, or nothing changes. */
  lemma PutSparesExactly(s: State, key: string, payload: Json, alnum: AlNum)
    requires s.Synced() && Sane(alnum) && PutResult(s, key, payload, alnum).Stored?
    ensures var fn := FileFor(s.store, key, alnum);
      Validated(payload, fn).Some? &&
      (Spares(s.store, Put(s, key, payload, alnum).store, key) <==> Confined(s, key, fn, PolicyIn(payload, fn)))
  {
    var fn := FileFor(s.store, key, alnum);
    PutReplaces(s, key, payload, alnum);
    ParsedHasOneMatcher(Validated(payload, fn).value, fn);
    SparesExactly(s.store, Put(s, key, payload, alnum).store, key);
    ConfinedExactly(s, Put(s, key, payload, alnum).store, key, fn, PolicyIn(payload, fn));
  }

  /** A stored PUT leaves nobody's session behind: nothing changes at all, or the file served
      nobody else, and the new policy takes by id nobody whom a name alone serves. */
  ghost predicate Harmless(s: State, key: string, fn: string, written: UserPolicy) {
    written in s.store ||
    (&& (forall p :: p in s.store && p.sourceFile == fn ==> Only(p, key))
     && (ForeignId(written, key) ==> forall q :: q in s.store ==> !ForeignName(q, key)))
  }

  lemma SameAsBefore(s: State, b: seq<UserPolicy>, fn: string, written: UserPolicy)
    requires s.Synced() && Replaced(s.store, b, fn, Some(written)) && written.sourceFile == fn && written in s.store
    ensures forall p :: p in s.store <==> p in b
  {
    forall p
      ensures p in s.store <==> p in b
    {
      if p in s.store && p.sourceFile == fn {
        Origin(s.disk, s.store, p);
        Origin(s.disk, s.store, written);
      }
    }
  }

  lemma HarmlessExactly(s: State, b: seq<UserPolicy>, key: string, fn: string, written: UserPolicy)
    requires s.Synced() && Replaced(s.store, b, fn, Some(written)) && written.sourceFile == fn
    ensures NoneStranded(s.store, b, key) <==> Harmless(s, key, fn, written)
  {
    if written in s.store {
      SameAsBefore(s, b, fn, written);
    } else {
      assert written in b;
      assert forall p :: p in s.store && p !in b <==> p in s.store && p.sourceFile == fn;
      assert forall p :: p in b && p !in s.store <==> p == written;
    }
  }

  /** The exact condition on a stored PUT for the sessions it leaves open, checked before it
      is sent. */
  lemma PutStrandsExactly(s: State, key: string, payload: Json, alnum: AlNum)
    requires s.Synced() && Sane(alnum) && PutResult(s, key, payload, alnum).Stored?
    ensures var fn := FileFor(s.store, key, alnum);
      Validated(payload, fn).Some? &&
      (SparesServed(s.store, Put(s, key, payload, alnum).store, key) <==> Harmless(s, key, fn, PolicyIn(payload, fn)))
  {
    var fn := FileFor(s.store, key, alnum);
    PutReplaces(s, key, payload, alnum);
    ParsedHasOneMatcher(Validated(payload, fn).value, fn);
    StrandsExactly(s.store, Put(s, key, payload, alnum).store, key);
    HarmlessExactly(s, Put(s, key, payload, alnum).store, key, fn, PolicyIn(payload, fn));
  }

  /** Whatever becomes of it, a PUT leaves nobody's session behind. */
  ghost predicate HarmlessPut(s: State, key: string, payload: Json, alnum: AlNum) {
    var fn := FileFor(s.store, key, alnum);
    PutResult(s, key, payload, alnum).Stored? ==>
      Validated(payload, fn).Some? && Harmless(s, key, fn, PolicyIn(payload, fn))
  }

  lemma HarmlessPutExactly(s: State, key: string, payload: Json, alnum: AlNum)
    requires s.Synced() && Sane(alnum)
    ensures NoneStranded(s.store, Put(s, key, payload, alnum).store, key) <==> HarmlessPut(s, key, payload, alnum)
  {
    if PutResult(s, key, payload, alnum).Stored? {
      PutReplaces(s, key, payload, alnum);
      StrandsExactly(s.store, Put(s, key, payload, alnum).store, key);
      PutStrandsExactly(s, key, payload, alnum);
    } else {
      FailedPutLeavesStore(s, key, payload, alnum);
      assert Put(s, key, payload, alnum).store == s.store;
      NothingStranded(s.store, key);
    }
  }

  lemma NothingStranded(a: seq<UserPolicy>, key: string)
    ensures NoneStranded(a, a, key)
  {}

  lemma AimedIsOnly(payload: Json, key: string, fn: string)
    requires AimedAt(payload, key) && Validated(payload, fn).Some?
    ensures Only(PolicyIn(payload, fn), key)
  {
    AimedPolicy(payload, key, fn);
  }

  lemma OwnFileIsConfined(s: State, key: string, payload: Json, alnum: AlNum)
    requires s.Synced() && AimedAt(payload, key) && OwnFile(s, key, alnum)
    requires Validated(payload, FileFor(s.store, key, alnum)).Some?
    ensures Confined(s, key, FileFor(s.store, key, alnum), PolicyIn(payload, FileFor(s.store, key, alnum)))
  {
    var fn := FileFor(s.store, key, alnum);
    AimedIsOnly(payload, key, fn);
    forall p | p in s.store && p.sourceFile == fn
      ensures Only(p, key)
    {
      OwnerIsClaimed(s, key, alnum, p);
    }
  }

  /** So a PUT about the user its key addresses, with nobody else's file in the way, spares
      everybody else, however it ends. */
  lemma ProperPutSpares(s: State, key: string, payload: Json, alnum: AlNum)
    requires s.Synced() && Sane(alnum) && AimedAt(payload, key) && OwnFile(s, key, alnum)
    ensures Spares(s.store, Put(s, key, payload, alnum).store, key)
  {
    FailedPutLeavesStore(s, key, payload, alnum);
    if PutResult(s, key, payload, alnum).Stored? {
      PutSparesExactly(s, key, payload, alnum);
      OwnFileIsConfined(s, key, payload, alnum);
    }
  }

  lemma OwnerIsClaimed(s: State, key: string, alnum: AlNum, p: UserPolicy)
    requires s.Synced() && OwnFile(s, key, alnum) && key != ""
    requires p in s.store && p.sourceFile == FileFor(s.store, key, alnum)
    ensures Only(p, key)
  {
    LoadedIsGood(s.disk);
    Origin(s.disk, s.store, p);
    if Claimed(s.store, key).Some? {
      var c := Claimed(s.store, key).value;
      Origin(s.disk, s.store, c);
      ClaimIsOnly(c, key);
    }
  }

  lemma ClaimIsOnly(p: UserPolicy, key: string)
    requires Claims(p, key) && OneMatcher(p) && key != ""
    ensures Only(p, key)
  {}

  // ---- DELETE ----

  /** While store and directory are in step, DELETE always spares everybody else. */
  lemma DeleteSpares(s: State, key: string)
    requires s.Synced() && key != ""
    ensures Delete(s, key).Synced() && OnlyChanges(s.store, Delete(s, key).store, key)
    ensures Spares(s.store, Delete(s, key).store, key)
  {
    LoadedIsGood(s.disk);
    if Claimed(s.store, key).Some? {
      var c := Claimed(s.store, key).value;
      RemoveReloads(s.disk, c.sourceFile);
      forall p | p in s.store && p.sourceFile == c.sourceFile
        ensures Only(p, key)
      {
        Origin(s.disk, s.store, p);
        Origin(s.disk, s.store, c);
        ClaimIsOnly(c, key);
      }
    }
    LoadedIsGood(Delete(s, key).disk);
    SparesExactly(s.store, Delete(s, key).store, key);
  }

  // ---- stores stay loaded ----

  lemma PutIsGood(s: State, key: string, payload: Json, alnum: AlNum)
    requires Good(s.store)
    ensures Good(Put(s, key, payload, alnum).store)
  {
    var fn := FileFor(s.store, key, alnum);
    if Validated(payload, fn).Some? {
      ReloadIsGood(s.(disk := s.disk[fn := Validated(payload, fn).value]));
    }
  }

  lemma DeleteIsGood(s: State, key: string)
    requires Good(s.store)
    ensures Good(Delete(s, key).store)
  {
    if Claimed(s.store, key).Some? {
      ReloadIsGood(s.(disk := s.disk - {Claimed(s.store, key).value.sourceFile}));
    }
  }

  lemma UnremovedLeavesStore(s: State, key: string)
    ensures !DeleteResult(s, key).Removed? ==> Delete(s, key).store == s.store
  {}

  lemma ReloadIsGood(s: State)
    requires Good(s.store)
    ensures Good(Reload(s).store)
  {
    if Load(s.disk).Some? { LoadedIsGood(s.disk); }
  }
}
