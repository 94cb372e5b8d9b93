/** Whole histories of policy changes: requests by administrators, with any payloads, and
    files edited by hand in between. */
module AdminRuns {
  import opened Collections
  import opened JsonValues
  import opened Policies
  import opened PolicyStores
  import opened PolicyAdmin

  datatype Change =
    | PutChange(key: string, payload: Json)
    | DeleteChange(key: string)
    | HandWritten(fn: string, root: Json)
    | HandRemoved(fn: string)

  function Next(s: State, a: Change, alnum: AlNum): State {
    match a
    case PutChange(key, payload) => Put(s, key, payload, alnum)
    case DeleteChange(key) => Delete(s, key)
    case HandWritten(fn, root) => s.(disk := s.disk[fn := root])
    case HandRemoved(fn) => s.(disk := s.disk - {fn})
  }

  function After(s: State, changes: seq<Change>, alnum: AlNum): State {
    if changes == [] then s
    else Next(After(s, changes[..|changes| - 1], alnum), changes[|changes| - 1], alnum)
  }

  /** After `j` changes the directory held exactly the policies of this store. */
  ghost predicate LoadedAt(s: State, changes: seq<Change>, alnum: AlNum, j: nat, store: seq<UserPolicy>)
    requires j <= |changes|
  {
    Load(After(s, changes[..j], alnum).disk) == Some(store)
  }

  lemma ReloadLoadsOrKeeps(s: State)
    ensures Reload(s).disk == s.disk
    ensures Reload(s).Synced() || Reload(s).store == s.store
  {}

  lemma ChangeLoadsOrKeeps(s: State, a: Change, alnum: AlNum)
    ensures Next(s, a, alnum).Synced() || Next(s, a, alnum).store == s.store
  {
    match a
    case PutChange(key, payload) =>
      var fn := FileFor(s.store, key, alnum);
      var root := Validated(payload, fn);
      if root.Some? { ReloadLoadsOrKeeps(s.(disk := s.disk[fn := root.value])); }
    case DeleteChange(key) =>
      var p := Claimed(s.store, key);
      if p.Some? { ReloadLoadsOrKeeps(s.(disk := s.disk - {p.value.sourceFile})); }
    case _ =>
  }

  /** The store was loaded from the directory at some point of the history. */
  ghost predicate WasLoaded(s: State, changes: seq<Change>, alnum: AlNum, store: seq<UserPolicy>) {
    exists j: nat :: j <= |changes| && LoadedAt(s, changes, alnum, j, store)
  }

  lemma NowLoaded(s: State, changes: seq<Change>, alnum: AlNum)
    requires After(s, changes, alnum).Synced()
    ensures WasLoaded(s, changes, alnum, After(s, changes, alnum).store)
  {
    assert changes[..|changes|] == changes;
    assert LoadedAt(s, changes, alnum, |changes|, After(s, changes, alnum).store);
  }

  lemma StillLoaded(s: State, changes: seq<Change>, alnum: AlNum, store: seq<UserPolicy>)
    requires changes != [] && WasLoaded(s, changes[..|changes| - 1], alnum, store)
    ensures WasLoaded(s, changes, alnum, store)
  {
    var front := changes[..|changes| - 1];
    var j: nat :| j <= |front| && LoadedAt(s, front, alnum, j, store);
    assert front[..j] == changes[..j];
    assert LoadedAt(s, changes, alnum, j, store);
  }

  lemma LoadedOnceIsGood(s: State, changes: seq<Change>, alnum: AlNum, store: seq<UserPolicy>)
    requires WasLoaded(s, changes, alnum, store)
    ensures Good(store)
  {
    var j: nat :| j <= |changes| && LoadedAt(s, changes, alnum, j, store);
    LoadedIsGood(After(s, changes[..j], alnum).disk);
  }

  lemma {:induction false} AlwaysLoadedOnce(s: State, changes: seq<Change>, alnum: AlNum)
    requires s.Synced()
    ensures WasLoaded(s, changes, alnum, After(s, changes, alnum).store)
  {
    if changes == [] {
      NowLoaded(s, changes, alnum);
    } else {
      var n := |changes| - 1;
      AlwaysLoadedOnce(s, changes[..n], alnum);
      ChangeLoadsOrKeeps(After(s, changes[..n], alnum), changes[n], alnum);
      if After(s, changes, alnum).Synced() {
        NowLoaded(s, changes, alnum);
      } else {
        StillLoaded(s, changes, alnum, After(s, changes, alnum).store);
      }
    }
  }

  /** Whatever is changed, and however badly, the running store is always a whole directory
      that once loaded, never a mixture; so no two of its policies ever claim one user. */
  lemma StoreWasLoaded(s: State, changes: seq<Change>, alnum: AlNum)
    requires s.Synced()
    ensures WasLoaded(s, changes, alnum, After(s, changes, alnum).store)
    ensures Good(After(s, changes, alnum).store)
  {
    AlwaysLoadedOnce(s, changes, alnum);
    LoadedOnceIsGood(s, changes, alnum, After(s, changes, alnum).store);
  }

  /** The next successful reload repairs any divergence, whatever came before it. */
  lemma SuccessSyncs(s: State, key: string, payload: Json, alnum: AlNum)
    ensures PutResult(s, key, payload, alnum).Stored? ==> Put(s, key, payload, alnum).Synced()
    ensures DeleteResult(s, key).Removed? ==> Delete(s, key).Synced()
  {}
}
