/** The admin API's writes: one policy file put or removed, the directory reloaded, and the
    running store swapped only if that succeeds. */
module PolicyAdmin {
  import opened Collections
  import opened JsonValues
  import opened Policies
  import opened PolicyStores
  import opened PolicyEditor
  import opened PolicyDocuments

  /** `str.isalnum` on one character. */
  type AlNum = char -> bool

  function SafeChar(c: char, alnum: AlNum): char {
    if alnum(c) || c == '-' || c == '_' then c else '-'
  }

  function Slug(key: string, alnum: AlNum): (r: string)
    ensures |r| == if |key| > 80 then 80 else |key|
    ensures forall i :: 0 <= i < |r| ==> r[i] == SafeChar(key[i], alnum)
  {
    seq(if |key| > 80 then 80 else |key|, i requires 0 <= i < |key| => SafeChar(key[i], alnum))
  }

  function SafeFilename(key: string, alnum: AlNum): string {
    (if Slug(key, alnum) == "" then "user" else Slug(key, alnum)) + ".yaml"
  }

  /** Whatever the key, the name is one file of the policy directory that will be loaded. */
  lemma SafeFilenameIsLoadable(key: string, alnum: AlNum)
    requires !alnum('.') && !alnum('/')
    ensures Loadable(SafeFilename(key, alnum)) && '/' !in SafeFilename(key, alnum) && |SafeFilename(key, alnum)| <= 85
  {
    var stem, fn := if Slug(key, alnum) == "" then "user" else Slug(key, alnum), SafeFilename(key, alnum);
    assert fn == stem + ".yaml" && fn[|fn| - 5..] == ".yaml";
    assert fn[0] == stem[0] != '.';
  }

  /** A character that is kept in a file name. */
  predicate KeptIn(c: char, alnum: AlNum) {
    alnum(c) || c == '-' || c == '_'
  }

  /** A short key of such characters names its own file. */
  lemma GoodKeyNamesItsFile(key: string, alnum: AlNum)
    requires 0 < |key| <= 80 && forall c :: c in key ==> KeptIn(c, alnum)
    ensures SafeFilename(key, alnum) == key + ".yaml"
  {
    assert Slug(key, alnum) == key by {
      forall i | 0 <= i < |key|
        ensures Slug(key, alnum)[i] == key[i]
      {
        assert key[i] in key;
      }
    }
  }

  /** Any other key is named by its first eighty characters, each other character a hyphen;
      the empty one is `user`. */
  lemma NameExactly(key: string, alnum: AlNum)
    ensures key == "" ==> SafeFilename(key, alnum) == "user.yaml"
    ensures key != "" ==>
      |SafeFilename(key, alnum)| == (if |key| > 80 then 80 else |key|) + 5 &&
      SafeFilename(key, alnum)[|SafeFilename(key, alnum)| - 5..] == ".yaml"
    ensures forall i :: 0 <= i < |key| && i < 80 ==>
      SafeFilename(key, alnum)[i] == if KeptIn(key[i], alnum) then key[i] else '-'
  {
    var fn, slug := SafeFilename(key, alnum), Slug(key, alnum);
    if key != "" { assert fn == slug + ".yaml" && fn[|slug|..] == ".yaml"; }
  }

  /** The policy is the one the admin addresses by this key. */
  predicate Claims(p: UserPolicy, key: string) {
    p.matchUserId == Some(key) || p.matchUserName == Some(key)
  }

  /** The first policy of the store that the key addresses. */
  function Claimed(ps: seq<UserPolicy>, key: string): (r: Option<UserPolicy>)
    ensures r.Some? ==> r.value in ps && Claims(r.value, key)
    ensures r.None? ==> forall p :: p in ps ==> !Claims(p, key)
  {
    if ps == [] then None
    else if Claims(ps[0], key) then Some(ps[0])
    else
      assert forall p :: p in ps <==> p == ps[0] || p in ps[1..];
      Claimed(ps[1..], key)
  }

  function FileFor(ps: seq<UserPolicy>, key: string, alnum: AlNum): string {
    if Claimed(ps, key).Some? then Claimed(ps, key).value.sourceFile else SafeFilename(key, alnum)
  }

  method ExistingFileFor(ps: seq<UserPolicy>, key: string, alnum: AlNum) returns (fn: string)
    ensures fn == FileFor(ps, key, alnum)
  {
    for i := 0 to |ps|
      invariant Claimed(ps, key) == Claimed(ps[i..], key)
    {
      if Claims(ps[i], key) { return ps[i].sourceFile; }
    }
    return SafeFilename(key, alnum);
  }

  method FirstClaimed(ps: seq<UserPolicy>, key: string) returns (p: Option<UserPolicy>)
    ensures p == Claimed(ps, key)
  {
    for i := 0 to |ps|
      invariant Claimed(ps, key) == Claimed(ps[i..], key)
    {
      if Claims(ps[i], key) { return Some(ps[i]); }
    }
    return None;
  }

  /** The policy directory and the store in use. */
  datatype State = State(disk: Disk, store: seq<UserPolicy>) {
    predicate Synced() {
      Load(disk) == Some(store)
    }
  }

  datatype PutOutcome = Refused | ReloadFailed | Stored(file: string)
  datatype DeleteOutcome = NoPolicy | Removed | Failed

  function Reload(s: State): State {
    if Load(s.disk).Some? then s.(store := Load(s.disk).value) else s
  }

  function Write(s: State, fn: string, root: Json): State {
    Reload(s.(disk := s.disk[fn := root]))
  }

  function Remove(s: State, fn: string): State {
    Reload(s.(disk := s.disk - {fn}))
  }

  /** The document a payload stands for, if the parser takes it. */
  function Validated(payload: Json, fn: string): Option<Json> {
    var root := ToMapping(payload);
    if root.Some? && PolicyOf(root.value, fn).Some? then root else None
  }

  /** The policy it stands for. */
  function PolicyIn(payload: Json, fn: string): UserPolicy
    requires Validated(payload, fn).Some?
  {
    PolicyOf(Validated(payload, fn).value, fn).value
  }

  function Put(s: State, key: string, payload: Json, alnum: AlNum): State {
    var fn := FileFor(s.store, key, alnum);
    var root := Validated(payload, fn);
    if root.None? then s else Write(s, fn, root.value)
  }

  function PutResult(s: State, key: string, payload: Json, alnum: AlNum): PutOutcome {
    var fn := FileFor(s.store, key, alnum);
    var root := Validated(payload, fn);
    if root.None? then Refused
    else if Load(s.disk[fn := root.value]).None? then ReloadFailed
    else Stored(fn)
  }

  function Delete(s: State, key: string): State {
    var p := Claimed(s.store, key);
    if p.None? then s else Remove(s, p.value.sourceFile)
  }

  function DeleteResult(s: State, key: string): DeleteOutcome {
    var p := Claimed(s.store, key);
    if p.None? then NoPolicy
    else if Load(s.disk - {p.value.sourceFile}).None? then Failed
    else Removed
  }

  // ---- one file changes ----

  lemma Origin(disk: Disk, ps: seq<UserPolicy>, p: UserPolicy)
    requires Load(disk) == Some(ps)
    ensures p in ps <==> Holds(disk, p.sourceFile, p)
  {
    LoadExact(disk);
    if p in ps {
      var fn :| Holds(disk, fn, p);
    }
  }

  lemma ClashIsSymmetric(p: UserPolicy, q: UserPolicy)
    ensures Clash(p, q) <==> Clash(q, p)
  {}

  /** Some other file's policy claims the same user. */
  ghost predicate TakenElsewhere(disk: Disk, fn: string, p: UserPolicy) {
    exists gn, q :: gn != fn && Holds(disk, gn, q) && Clash(q, p)
  }

  lemma HoldsAfterWrite(disk: Disk, fn: string, root: Json)
    requires Loadable(fn) && PolicyOf(root, fn).Some?
    ensures forall gn, p :: Holds(disk[fn := root], gn, p) <==>
      (if gn == fn then PolicyOf(root, fn) == Some(p) else Holds(disk, gn, p))
  {
    forall gn, p
      ensures Holds(disk[fn := root], gn, p) <==>
        (if gn == fn then PolicyOf(root, fn) == Some(p) else Holds(disk, gn, p))
    {}
  }

  lemma HoldsAfterRemove(disk: Disk, fn: string)
    ensures forall gn, p :: Holds(disk - {fn}, gn, p) <==> gn != fn && Holds(disk, gn, p)
  {
    forall gn, p
      ensures Holds(disk - {fn}, gn, p) <==> gn != fn && Holds(disk, gn, p)
    {}
  }

  /** The reload after a write succeeds exactly when no other file claims the same user. */
  lemma WriteReloadsExactly(disk: Disk, fn: string, root: Json)
    requires Load(disk).Some? && Loadable(fn) && PolicyOf(root, fn).Some?
    ensures Load(disk[fn := root]).Some? <==> !TakenElsewhere(disk, fn, PolicyOf(root, fn).value)
  {
    var written, disk' := PolicyOf(root, fn).value, disk[fn := root];
    LoadExact(disk);
    LoadExact(disk');
    HoldsAfterWrite(disk, fn, root);
    assert Sound(disk');
    if !TakenElsewhere(disk, fn, written) {
      forall gn, hn, p, q | Holds(disk', gn, p) && Holds(disk', hn, q) && gn != hn
        ensures !Clash(p, q)
      {
        ClashIsSymmetric(p, q);
        if gn == fn {
          assert Holds(disk, hn, q) && p == written;
        } else if hn == fn {
          assert Holds(disk, gn, p) && q == written;
        } else {
          assert Holds(disk, gn, p) && Holds(disk, hn, q);
        }
      }
    } else {
      var gn, q :| gn != fn && Holds(disk, gn, q) && Clash(q, written);
      assert Holds(disk', gn, q) && Holds(disk', fn, written);
    }
  }

  /** `b` is `a` without the policies of file `fn`, and with `written` if there is one. */
  ghost predicate Replaced(a: seq<UserPolicy>, b: seq<UserPolicy>, fn: string, written: Option<UserPolicy>) {
    forall p :: p in b <==> Some(p) == written || (p in a && p.sourceFile != fn)
  }

  lemma LoadedIsGood(disk: Disk)
    requires Load(disk).Some?
    ensures Good(Load(disk).value)
  {
    LoadExact(disk);
  }

  lemma WriteReplaces(disk: Disk, fn: string, root: Json)
    requires Load(disk).Some? && Loadable(fn) && PolicyOf(root, fn).Some? && Load(disk[fn := root]).Some?
    ensures Replaced(Load(disk).value, Load(disk[fn := root]).value, fn, PolicyOf(root, fn))
  {
    var a, b, disk' := Load(disk).value, Load(disk[fn := root]).value, disk[fn := root];
    HoldsAfterWrite(disk, fn, root);
    ParsedHasOneMatcher(root, fn);
    forall p
      ensures p in b <==> Some(p) == PolicyOf(root, fn) || (p in a && p.sourceFile != fn)
    {
      Origin(disk, a, p);
      Origin(disk', b, p);
    }
  }

  /** Taking a file away never makes a reload fail, and takes just its policy away. */
  lemma RemoveReloads(disk: Disk, fn: string)
    requires Load(disk).Some?
    ensures Load(disk - {fn}).Some? && Replaced(Load(disk).value, Load(disk - {fn}).value, fn, None)
  {
    var disk' := disk - {fn};
    RemoveLoads(disk, fn);
    HoldsAfterRemove(disk, fn);
    var a, b := Load(disk).value, Load(disk').value;
    forall p
      ensures p in b <==> p in a && p.sourceFile != fn
    {
      Origin(disk, a, p);
      Origin(disk', b, p);
    }
  }

  lemma RemoveLoads(disk: Disk, fn: string)
    requires Load(disk).Some?
    ensures Load(disk - {fn}).Some?
  {
    LoadExact(disk);
    LoadExact(disk - {fn});
    HoldsAfterRemove(disk, fn);
    assert Sound(disk - {fn}) by {
      forall gn | gn in disk - {fn} && Loadable(gn)
        ensures Parses(disk - {fn}, gn)
      {
        assert Parses(disk, gn);
      }
    }
  }

  // ---- what one change does to `find` ----

  lemma MatchesSplits(p: UserPolicy, i: Identity)
    ensures p.Matches(i) <==> ById(p, i) || ByName(p, i)
  {}

  /** Found through the file `fn`. */
  predicate ServedFrom(ps: seq<UserPolicy>, i: Identity, fn: string) {
    Find(ps, i).Some? && Find(ps, i).value.sourceFile == fn
  }

  /** Everybody whom the new policy does not match keeps what they had, unless they had it
      from the replaced file: then, and only then, they lose it. */
  lemma FrameOfChange(a: seq<UserPolicy>, b: seq<UserPolicy>, fn: string, written: Option<UserPolicy>, i: Identity)
    requires Good(a) && Good(b) && Replaced(a, b, fn, written) && Determined(b, i)
    requires written.Some? ==> !written.value.Matches(i)
    ensures Find(b, i) == Find(a, i) <==> !ServedFrom(a, i, fn)
  {
    FindIsEligible(a, i);
    FindIsEligible(b, i);
    if written.Some? { MatchesSplits(written.value, i); }
    if ServedFrom(a, i, fn) {
      LosesIt(a, b, fn, written, i);
    } else if Find(a, i).Some? {
      var p := Find(a, i).value;
      assert Eligible(b, p, i);
      FindExact(b, i, p);
    }
  }

  lemma LosesIt(a: seq<UserPolicy>, b: seq<UserPolicy>, fn: string, written: Option<UserPolicy>, i: Identity)
    requires Replaced(a, b, fn, written) && ServedFrom(a, i, fn)
    requires written.Some? ==> !written.value.Matches(i)
    ensures Find(b, i) != Find(a, i)
  {
    FindIsEligible(a, i);
    FindIsEligible(b, i);
    assert Find(a, i).value !in b;
  }

  /** Another file's policy has the identity's id. */
  ghost predicate IdElsewhere(ps: seq<UserPolicy>, fn: string, i: Identity) {
    exists q :: q in ps && q.sourceFile != fn && ById(q, i)
  }

  /** Whoever the new policy matches is given it -- except by name only, when another file's
      policy has their id: then they keep that one. */
  lemma WrittenIsFound(a: seq<UserPolicy>, b: seq<UserPolicy>, fn: string, written: UserPolicy, i: Identity)
    requires Good(a) && Good(b) && Replaced(a, b, fn, Some(written)) && Determined(a, i) && Determined(b, i)
    requires written.Matches(i)
    ensures Find(b, i) == if ByName(written, i) && IdElsewhere(a, fn, i) then Find(a, i) else Some(written)
  {
    MatchesSplits(written, i);
    if ByName(written, i) && IdElsewhere(a, fn, i) {
      var q :| q in a && q.sourceFile != fn && ById(q, i);
      assert Eligible(a, q, i) && Eligible(b, q, i);
      FindExact(a, i, q);
      FindExact(b, i, q);
    } else {
      assert Eligible(b, written, i);
      FindExact(b, i, written);
    }
  }

  // ---- PUT ----

  /** `isalnum` accepts neither the dot nor the slash. */
  predicate Sane(alnum: AlNum) {
    !alnum('.') && !alnum('/')
  }

  lemma FileForIsLoadable(s: State, key: string, alnum: AlNum)
    requires s.Synced() && Sane(alnum)
    ensures Loadable(FileFor(s.store, key, alnum))
  {
    SafeFilenameIsLoadable(key, alnum);
    if Claimed(s.store, key).Some? { Origin(s.disk, s.store, Claimed(s.store, key).value); }
  }

  /** A payload the parser takes fails to reload exactly when another file claims its user.
      The file has been written by then: the directory no longer matches the store. */
  lemma ReloadFailsExactly(s: State, key: string, payload: Json, alnum: AlNum)
    requires s.Synced() && Sane(alnum)
    requires Validated(payload, FileFor(s.store, key, alnum)).Some?
    ensures var fn := FileFor(s.store, key, alnum);
      var taken := TakenElsewhere(s.disk, fn, PolicyIn(payload, fn));
      (PutResult(s, key, payload, alnum) == (if taken then ReloadFailed else Stored(fn))) &&
      (Put(s, key, payload, alnum).Synced() <==> !taken)
  {
    var fn := FileFor(s.store, key, alnum);
    FileForIsLoadable(s, key, alnum);
    WriteReloadsExactly(s.disk, fn, Validated(payload, fn).value);
  }

  /** A PUT that is refused changes nothing at all; one whose reload fails leaves the store
      in use as it was. */
  lemma FailedPutLeavesStore(s: State, key: string, payload: Json, alnum: AlNum)
    ensures PutResult(s, key, payload, alnum).Refused? ==> Put(s, key, payload, alnum) == s
    ensures PutResult(s, key, payload, alnum).ReloadFailed? ==> Put(s, key, payload, alnum).store == s.store
  {}

  /** A stored PUT: the store is again what the directory holds, namely the old one with the
      file's policy replaced by the payload's. */
  lemma PutReplaces(s: State, key: string, payload: Json, alnum: AlNum)
    requires s.Synced() && Sane(alnum) && PutResult(s, key, payload, alnum).Stored?
    ensures var fn := FileFor(s.store, key, alnum);
      var s' := Put(s, key, payload, alnum);
      Validated(payload, fn).Some? && s'.Synced() && Good(s.store) && Good(s'.store) &&
      Replaced(s.store, s'.store, fn, Some(PolicyIn(payload, fn)))
  {
    var fn := FileFor(s.store, key, alnum);
    var root := Validated(payload, fn).value;
    FileForIsLoadable(s, key, alnum);
    WriteReplaces(s.disk, fn, root);
    LoadedIsGood(s.disk);
    LoadedIsGood(s.disk[fn := root]);
  }

  /** What a PUT does to one identity, for any key and any payload, by id or by name. Unless
      the file is stored, nothing. If it is: whoever the payload's policy matches is given
      it, but for a match by name that an id elsewhere beats; and everyone else keeps what
      they had if and only if they did not have it from the file written. */
  lemma PutIsMapUpdate(s: State, key: string, payload: Json, alnum: AlNum, i: Identity)
    requires s.Synced() && Sane(alnum)
    requires Determined(s.store, i) && Determined(Put(s, key, payload, alnum).store, i)
    ensures var fn := FileFor(s.store, key, alnum);
      var before, after := Find(s.store, i), Find(Put(s, key, payload, alnum).store, i);
      if !PutResult(s, key, payload, alnum).Stored? then after == before
      else
        var written := PolicyIn(payload, fn);
        Put(s, key, payload, alnum).Synced() &&
        if written.Matches(i)
        then after == if ByName(written, i) && IdElsewhere(s.store, fn, i) then before else Some(written)
        else after == before <==> !ServedFrom(s.store, i, fn)
  {
    var fn := FileFor(s.store, key, alnum);
    var s' := Put(s, key, payload, alnum);
    FailedPutLeavesStore(s, key, payload, alnum);
    if PutResult(s, key, payload, alnum).Stored? {
      var written := PolicyIn(payload, fn);
      PutReplaces(s, key, payload, alnum);
      if written.Matches(i) {
        WrittenIsFound(s.store, s'.store, fn, written, i);
      } else {
        FrameOfChange(s.store, s'.store, fn, Some(written), i);
      }
    }
  }

  /** The new user of a PUT has a file of their own to go to. */
  predicate OwnFile(s: State, key: string, alnum: AlNum) {
    Claimed(s.store, key).None? ==> SafeFilename(key, alnum) !in s.disk
  }

  lemma ServedByClaimed(s: State, key: string, alnum: AlNum, i: Identity)
    requires s.Synced() && OwnFile(s, key, alnum) && ServedFrom(s.store, i, FileFor(s.store, key, alnum))
    ensures Claimed(s.store, key).Some? && Claimed(s.store, key).value.Matches(i)
  {
    FindIsEligible(s.store, i);
    var p := Find(s.store, i).value;
    Origin(s.disk, s.store, p);
    if Claimed(s.store, key).Some? { Origin(s.disk, s.store, Claimed(s.store, key).value); }
  }

  /** With a file of its own to go to, a PUT touches only whom the new policy matches, or
      the policy the key addressed before. */
  lemma PutTouchesNobodyElse(s: State, key: string, payload: Json, alnum: AlNum, i: Identity)
    requires s.Synced() && Sane(alnum) && OwnFile(s, key, alnum)
    requires Determined(s.store, i) && Determined(Put(s, key, payload, alnum).store, i)
    requires var fn := FileFor(s.store, key, alnum);
      Validated(payload, fn).Some? ==> !PolicyIn(payload, fn).Matches(i)
    requires Claimed(s.store, key).Some? ==> !Claimed(s.store, key).value.Matches(i)
    ensures Find(Put(s, key, payload, alnum).store, i) == Find(s.store, i)
  {
    PutIsMapUpdate(s, key, payload, alnum, i);
    if ServedFrom(s.store, i, FileFor(s.store, key, alnum)) { ServedByClaimed(s, key, alnum, i); }
  }

  // ---- PUT as the panel sends it ----

  /** The payload names the user by this id. */
  predicate NamesById(payload: Json, key: string) {
    ReadForm(payload).Some? && Part(Part(payload, "user"), "id") == JStr(key)
  }

  predicate NamesByName(payload: Json, key: string) {
    var user := Part(payload, "user");
    ReadForm(payload).Some? && !Truthy(Part(user, "id")) && Part(user, "name") == JStr(key)
  }

  /** The payload is about the user the key addresses, whichever way it names them. */
  predicate AimedAt(payload: Json, key: string) {
    key != "" && (NamesById(payload, key) || NamesByName(payload, key))
  }

  /** The document made of such a payload claims the key, and no other user. */
  lemma AimedPolicy(payload: Json, key: string, fn: string)
    requires AimedAt(payload, key) && Validated(payload, fn).Some?
    ensures var written := PolicyIn(payload, fn);
      written.sourceFile == fn && Claims(written, key) &&
      if NamesById(payload, key) then written.matchUserId == Some(key) && written.matchUserName == None
      else written.matchUserId == None && written.matchUserName == Some(key)
  {
    AimedEdited(payload, key);
    DocumentRoundTrip(Edited(ReadForm(payload).value).value);
  }

  lemma AimedEdited(payload: Json, key: string)
    requires AimedAt(payload, key) && Edited(ReadForm(payload).value).Some?
    ensures var d := Edited(ReadForm(payload).value).value;
      d.uid == (if NamesById(payload, key) then JStr(key) else JNull) &&
      d.uname == if NamesById(payload, key) then JNull else JStr(key)
  {
    FormExactly(payload, EntityRule);
  }

  /** Accepted by the parser, and no policy claims the key the other way round. */
  predicate WellAimed(s: State, key: string, payload: Json, alnum: AlNum) {
    && AimedAt(payload, key) && Validated(payload, FileFor(s.store, key, alnum)).Some?
    && forall p | p in s.store :: (if NamesById(payload, key) then p.matchUserName else p.matchUserId) != Some(key)
  }

  lemma ClaimedElsewhere(s: State, key: string, gn: string, q: UserPolicy, m: Matcher, alnum: AlNum)
    requires s.Synced() && key != "" && gn != FileFor(s.store, key, alnum) && Holds(s.disk, gn, q)
    requires forall p :: p in s.store && Claims(p, key) ==> Claim(p, m) == Some(key)
    ensures !Claims(q, key)
  {
    LoadedIsGood(s.disk);
    assert q.sourceFile == gn;
    Origin(s.disk, s.store, q);
    if Claims(q, key) {
      var c := Claimed(s.store, key).value;
      assert c.sourceFile != gn && SameClaim(q, c, m);
      MembersApart(s.store, q, c);
    }
  }

  lemma NobodyElseClaims(s: State, key: string, fn: string, written: UserPolicy, m: Matcher, alnum: AlNum)
    requires s.Synced() && key != "" && fn == FileFor(s.store, key, alnum)
    requires forall p :: p in s.store && Claims(p, key) ==> Claim(p, m) == Some(key)
    requires Claim(written, m) == Some(key) && forall n: Matcher :: n != m ==> Claim(written, n) == None
    ensures !TakenElsewhere(s.disk, fn, written)
  {
    forall gn, q | gn != fn && Holds(s.disk, gn, q)
      ensures !Clash(q, written)
    {
      ClaimedElsewhere(s, key, gn, q, m, alnum);
      ClashIsClaim(q, written, key, m);
    }
  }

  lemma ClashIsClaim(q: UserPolicy, written: UserPolicy, key: string, m: Matcher)
    requires Claim(written, m) == Some(key) && forall n: Matcher :: n != m ==> Claim(written, n) == None
    ensures Clash(q, written) ==> Claims(q, key)
  {
    assert forall n: Matcher :: SameClaim(q, written, n) ==> n == m;
  }

  /** A well-aimed PUT is always stored. */
  lemma WellAimedIsStored(s: State, key: string, payload: Json, alnum: AlNum)
    requires s.Synced() && Sane(alnum) && WellAimed(s, key, payload, alnum)
    ensures PutResult(s, key, payload, alnum) == Stored(FileFor(s.store, key, alnum))
  {
    var fn := FileFor(s.store, key, alnum);
    AimedPolicy(payload, key, fn);
    NobodyElseClaims(s, key, fn, PolicyIn(payload, fn), if NamesById(payload, key) then UserId else UserName, alnum);
    ReloadFailsExactly(s, key, payload, alnum);
  }

  /** By id, then, a PUT is a map update outright: the user with that id is given the
      payload's policy. */
  lemma PutGivesThePolicy(s: State, key: string, payload: Json, alnum: AlNum, i: Identity)
    requires s.Synced() && Sane(alnum) && WellAimed(s, key, payload, alnum)
    requires NamesById(payload, key) && i.userId == key
    ensures Find(Put(s, key, payload, alnum).store, i) == Some(PolicyIn(payload, FileFor(s.store, key, alnum)))
  {
    WellAimedIsStored(s, key, payload, alnum);
    AimedPolicy(payload, key, FileFor(s.store, key, alnum));
    PutIsMapUpdate(s, key, payload, alnum, i);
  }

  /** What the panel is given for a user without a policy: everything empty. */
  function Template(key: string): Json {
    FormJson(Document(JStr(key), JNull, JList([]), JList([]), JList([]), JBool(false), JNull, JList([])))
  }

  lemma TemplateIsValid(key: string, fn: string)
    requires key != ""
    ensures NamesById(Template(key), key) && Validated(Template(key), fn).Some?
  {
    var form := Document(JStr(key), JNull, JList([]), JList([]), JList([]), JBool(false), JNull, JList([]));
    var d := Document(JStr(key), JNull, JNull, JNull, JNull, JBool(false), JNull, JList([]));
    FormRoundTrip(form);
    FormExactly(Template(key), EntityRule);
    DocumentRoundTrip(d);
    assert Edited(form) == Some(d);
    assert WellTyped(d);
  }

  /** Sent back as it is, the template is a well-aimed PUT. */
  lemma TemplateIsWellAimed(s: State, key: string, alnum: AlNum)
    requires key != "" && forall p :: p in s.store ==> p.matchUserName != Some(key)
    ensures WellAimed(s, key, Template(key), alnum)
  {
    TemplateIsValid(key, FileFor(s.store, key, alnum));
  }

  // ---- where PUT fails its promises ----

  /** A fresh installation, with no policy files, is in step. */
  lemma EmptyIsSynced()
    ensures State(map[], []).Synced()
  {
    var disk: Disk := map[];
    FilesListed(disk);
    assert Files(disk) == [];
    assert ParsedAll(disk, []) == [];
  }

  /** The store holds one policy, for the user with this id, from this file. */
  predicate Single(s: State, key: string, fn: string) {
    && |s.store| == 1 && s.store[0].matchUserId == Some(key) && s.store[0].matchUserName == None
    && s.store[0].sourceFile == fn
  }

  lemma OnlyOne(ps: seq<UserPolicy>, p: UserPolicy)
    requires Accepted(ps) && OneMatcher(p) && forall q :: q in ps <==> q == p
    ensures ps == [p]
  {
    assert p in ps;
    assert forall k :: 0 <= k < |ps| ==> ps[k] == p by {
      assert forall k :: 0 <= k < |ps| ==> ps[k] in ps;
    }
    assert |ps| > 1 ==> !Clash(ps[0], ps[1]);
  }

  lemma TemplateReplaces(s: State, key: string, alnum: AlNum) returns (p: UserPolicy)
    requires s.Synced() && Sane(alnum) && key != "" && forall q :: q in s.store ==> q.matchUserName != Some(key)
    ensures var fn := FileFor(s.store, key, alnum);
      var s' := Put(s, key, Template(key), alnum);
      s'.Synced() && Good(s'.store) && Replaced(s.store, s'.store, fn, Some(p)) &&
      p.matchUserId == Some(key) && p.matchUserName == None && p.sourceFile == fn
  {
    var fn := FileFor(s.store, key, alnum);
    TemplateIsWellAimed(s, key, alnum);
    WellAimedIsStored(s, key, Template(key), alnum);
    PutReplaces(s, key, Template(key), alnum);
    AimedPolicy(Template(key), key, fn);
    TemplateIsValid(key, fn);
    p := PolicyIn(Template(key), fn);
  }

  /** The first policy of a fresh installation. */
  lemma FirstPut(key: string, alnum: AlNum)
    requires key != "" && Sane(alnum)
    ensures var s := Put(State(map[], []), key, Template(key), alnum);
      s.Synced() && Single(s, key, SafeFilename(key, alnum))
  {
    var empty, fn := State(map[], []), SafeFilename(key, alnum);
    EmptyIsSynced();
    var p := TemplateReplaces(empty, key, alnum);
    OnlyOne(Put(empty, key, Template(key), alnum).store, p);
  }

  lemma SingleIsFound(s: State, key: string, fn: string, i: Identity)
    requires Single(s, key, fn) && i.userId == key
    ensures Find(s.store, i).Some?
  {
    FirstIsFound(s.store[0], [], i);
    assert [s.store[0]] + [] == s.store;
  }

  /** Takeover: of two users whose ids share a slug, the second one's PUT leaves the first
      without a policy. */
  lemma SecondTakesFirst(first: string, second: string, alnum: AlNum, i: Identity)
    requires first != "" && second != "" && first != second && Sane(alnum)
    requires SafeFilename(first, alnum) == SafeFilename(second, alnum) && i.userId == first
    ensures var s := Put(State(map[], []), first, Template(first), alnum);
      Find(s.store, i).Some? && Find(Put(s, second, Template(second), alnum).store, i).None?
  {
    var s := Put(State(map[], []), first, Template(first), alnum);
    FirstPut(first, alnum);
    SingleIsFound(s, first, SafeFilename(first, alnum), i);
    SingleIsTaken(s, first, second, alnum, i);
  }

  lemma SingleIsTaken(s: State, first: string, second: string, alnum: AlNum, i: Identity)
    requires s.Synced() && Sane(alnum) && Single(s, first, SafeFilename(second, alnum))
    requires second != "" && first != second && i.userId == first
    ensures Find(Put(s, second, Template(second), alnum).store, i).None?
  {
    var fn := SafeFilename(second, alnum);
    assert forall q :: q in s.store ==> q == s.store[0];
    FreshFile(s, second, alnum);
    var p := TemplateReplaces(s, second, alnum);
    NobodyLeft(s.store, Put(s, second, Template(second), alnum).store, fn, p, i);
  }

  lemma NobodyLeft(a: seq<UserPolicy>, b: seq<UserPolicy>, fn: string, p: UserPolicy, i: Identity)
    requires Replaced(a, b, fn, Some(p)) && !p.Matches(i) && forall q :: q in a ==> q.sourceFile == fn
    ensures Find(b, i).None?
  {
    FindIsEligible(b, i);
  }

  /** Different keys may share a file name: a space and a hyphen become the same hyphen. */
  lemma SlugsCollide(alnum: AlNum, i: Identity)
    requires Sane(alnum) && alnum('a') && alnum('b') && !alnum(' ') && i.userId == "a b"
    ensures SafeFilename("a b", alnum) == SafeFilename("a-b", alnum)
    ensures var s := Put(State(map[], []), "a b", Template("a b"), alnum);
      Find(s.store, i).Some? && Find(Put(s, "a-b", Template("a-b"), alnum).store, i).None?
  {
    assert Slug("a b", alnum) == Slug("a-b", alnum) by {
      assert "a b"[1] == ' ' && "a-b"[1] == '-';
    }
    SecondTakesFirst("a b", "a-b", alnum, i);
  }

  /** A PUT for one key whose payload names another user, who has a file already: the parser
      takes it, the reload fails, and the directory holds what will not load. */
  lemma MisaimedPutFails(first: string, second: string, alnum: AlNum)
    requires first != "" && second != "" && first != second && Sane(alnum)
    requires SafeFilename(first, alnum) != SafeFilename(second, alnum)
    ensures var s := Put(State(map[], []), first, Template(first), alnum);
      var s' := Put(s, second, Template(first), alnum);
      PutResult(s, second, Template(first), alnum) == ReloadFailed && !s'.Synced() && s'.store == s.store
  {
    FirstPut(first, alnum);
    MisaimedFails(Put(State(map[], []), first, Template(first), alnum), first, second, alnum);
  }

  lemma MisaimedFails(s: State, first: string, second: string, alnum: AlNum)
    requires s.Synced() && Sane(alnum) && Single(s, first, SafeFilename(first, alnum))
    requires first != "" && first != second && SafeFilename(first, alnum) != SafeFilename(second, alnum)
    ensures PutResult(s, second, Template(first), alnum) == ReloadFailed
    ensures !Put(s, second, Template(first), alnum).Synced() && Put(s, second, Template(first), alnum).store == s.store
  {
    var fn := SafeFilename(second, alnum);
    TemplateIsValid(first, fn);
    AimedPolicy(Template(first), first, fn);
    ReloadFailsExactly(s, second, Template(first), alnum);
    Origin(s.disk, s.store, s.store[0]);
    assert Clash(s.store[0], PolicyIn(Template(first), fn));
    FailedPutLeavesStore(s, second, Template(first), alnum);
  }

  lemma ReloadCanFail(alnum: AlNum)
    requires Sane(alnum) && alnum('u') && alnum('1') && alnum('2')
    ensures var s := Put(State(map[], []), "u1", Template("u1"), alnum);
      PutResult(s, "u2", Template("u1"), alnum) == ReloadFailed && !Put(s, "u2", Template("u1"), alnum).Synced()
  {
    assert SafeFilename("u1", alnum)[1] == '1' && SafeFilename("u2", alnum)[1] == '2';
    MisaimedPutFails("u1", "u2", alnum);
  }

  // ---- what a payload grants ----

  /** A rule of the form for this id at this level; a rule without a level reads. */
  predicate Says(it: Json, id: string, control: bool) {
    IsFor(it, id) && if control then Controls(it) else ReadsOnly(it)
  }

  lemma EntryParses(id: Json, access: Json, kind: RuleKind)
    requires IsAccess(access) && RuleOf(EntryOf(id, access), kind).Some?
    ensures id.JStr? && RuleOf(EntryOf(id, access), kind) == Some(Rule(id.s, access == JStr("control")))
  {
    var entry := EntryOf(id, access);
    assert Get(entry.fields, "id") == id && GetOr(entry.fields, "access", JStr("read")) == access;
  }

  lemma EditedItem(it: Json, kind: RuleKind, id: string, control: bool)
    requires EditRule(it).Some? && RuleOf(EditRule(it).value, kind).Some?
    ensures RuleOf(EditRule(it).value, kind) == Some(Rule(id, control)) <==> Says(it, id, control)
  {
    var access := GetOr(it.fields, "access", JStr("read"));
    EntryParses(it.fields["id"], access, kind);
    assert |"read"| == 4 && |"control"| == 7;
  }

  /** The parsed document grants an id at a level exactly when the payload asks for it. */
  lemma PayloadGrantsExactly(items: Json, kind: RuleKind, id: string, control: bool)
    requires RulesPart(items).Some? && RulesOf(RulesPart(items).value, kind).Some?
    ensures id in IdsAt(RulesOf(RulesPart(items).value, kind).value, control) <==> AsksFor(items, id, control)
  {
    var rules := RulesOf(RulesPart(items).value, kind).value;
    if items.JList? && items.items != [] {
      var edited := EditRules(items.items);
      forall i | 0 <= i < |rules|
        ensures rules[i] == Rule(id, control) <==> Says(items.items[i], id, control)
      {
        assert items.items[i] in items.items;
        assert RuleOf(edited[i], kind) == Some(rules[i]);
        EditedItem(items.items[i], kind, id, control);
      }
      SameIds(items.items, rules, id, control);
    }
  }

  lemma SameIds(items: seq<Json>, rules: seq<Rule>, id: string, control: bool)
    requires |items| == |rules|
    requires forall i :: 0 <= i < |rules| ==> (rules[i] == Rule(id, control) <==> Says(items[i], id, control))
    ensures id in IdsAt(rules, control) <==> AsksFor(JList(items), id, control)
  {
    if id in IdsAt(rules, control) {
      var i :| 0 <= i < |rules| && rules[i] == Rule(id, control);
      assert items[i] in items;
    }
    if AsksFor(JList(items), id, control) {
      var it :| it in items && Says(it, id, control);
      var i :| 0 <= i < |items| && items[i] == it;
      assert rules[i] in rules;
    }
  }

  /** The rule list of a kind, as the form and the document made of it carry it. */
  lemma EditedParts(f: Document, kind: RuleKind)
    requires Edited(f).Some?
    ensures RulesPart(f.Rules(kind)) == Some(Edited(f).value.Rules(kind))
    ensures Edited(f).value.token == IfTruthy(f.token, JBool(false))
    ensures Edited(f).value.default == IfTruthy(f.default, JNull)
  {}

  lemma ParsedParts(d: Document, fn: string, kind: RuleKind)
    requires WellTyped(d)
    ensures PolicyFrom(d, fn).control.Of(kind) == IdsAt(RulesOf(d.Rules(kind), kind).value, true)
    ensures PolicyFrom(d, fn).read.Of(kind) == IdsAt(RulesOf(d.Rules(kind), kind).value, false)
    ensures JBool(PolicyFrom(d, fn).tokenCreation) == d.token
    ensures PolicyFrom(d, fn).defaultDashboard == OptString(d.default)
  {}

  lemma AllowedParts(f: Document, d: Document, fn: string, dashboard: string)
    requires Edited(f) == Some(d) && WellTyped(d)
    ensures dashboard in PolicyFrom(d, fn).allowedDashboards <==> Lists(f.allowed, dashboard)
  {
    IteratedExactly(f.allowed, dashboard);
    assert IsString()(JStr(dashboard));
    assert d.allowed == JList(Keep(Iterated(f.allowed).value, IsString()));
  }

  /** A policy grants exactly what a payload asks for: `id` at each level for a kind of rule,
      `id` among the allowed dashboards, the default dashboard, and token management, the
      last only for a plain `true`. */
  ghost predicate Grants(p: UserPolicy, payload: Json, kind: RuleKind, id: string) {
    var dashboards := Part(payload, "dashboards");
    && (id in p.control.Of(kind) <==> AsksFor(Part(payload, KindKey(kind)), id, true))
    && (id in p.read.Of(kind) <==> AsksFor(Part(payload, KindKey(kind)), id, false))
    && (id in p.allowedDashboards <==> Lists(Part(dashboards, "allowed"), id))
    && JsonOf(p.defaultDashboard) == IfTruthy(Part(dashboards, "default"), JNull)
    && (p.tokenCreation <==> Part(payload, "token_creation") == JBool(true))
  }

  /** The same, read off a form. */
  ghost predicate GrantsForm(p: UserPolicy, form: Document, kind: RuleKind, id: string) {
    && (id in p.control.Of(kind) <==> AsksFor(form.Rules(kind), id, true))
    && (id in p.read.Of(kind) <==> AsksFor(form.Rules(kind), id, false))
    && (id in p.allowedDashboards <==> Lists(form.allowed, id))
    && JsonOf(p.defaultDashboard) == IfTruthy(form.default, JNull)
    && (p.tokenCreation <==> form.token == JBool(true))
  }

  /** After any stored PUT, whoever is served from the file written has exactly what the
      payload asks for. By `PutIsMapUpdate` these are the users its policy is found for. */
  lemma PutGrantsThePayload(s: State, key: string, payload: Json, alnum: AlNum, i: Identity, kind: RuleKind, id: string)
    requires s.Synced() && Sane(alnum) && PutResult(s, key, payload, alnum).Stored?
    requires ServedFrom(Put(s, key, payload, alnum).store, i, FileFor(s.store, key, alnum))
    ensures Grants(Find(Put(s, key, payload, alnum).store, i).value, payload, kind, id)
  {
    var fn := FileFor(s.store, key, alnum);
    var s' := Put(s, key, payload, alnum);
    PutReplaces(s, key, payload, alnum);
    FindIsEligible(s'.store, i);
    assert Find(s'.store, i).value == PolicyIn(payload, fn);
    PayloadPolicy(payload, fn, kind, id);
  }

  lemma PayloadPolicy(payload: Json, fn: string, kind: RuleKind, id: string)
    requires Validated(payload, fn).Some?
    ensures Grants(PolicyIn(payload, fn), payload, kind, id)
  {
    var form := ReadForm(payload).value;
    var d := Edited(form).value;
    DocumentRoundTrip(d);
    ParsedFromForm(form, d, fn, kind, id);
    FormExactly(payload, kind);
  }

  lemma ParsedFromForm(form: Document, d: Document, fn: string, kind: RuleKind, id: string)
    requires Edited(form) == Some(d) && WellTyped(d)
    ensures GrantsForm(PolicyFrom(d, fn), form, kind, id)
  {
    EditedParts(form, kind);
    ParsedParts(d, fn, kind);
    RulesReadable(d, kind);
    PayloadGrantsExactly(form.Rules(kind), kind, id, true);
    PayloadGrantsExactly(form.Rules(kind), kind, id, false);
    AllowedParts(form, d, fn, id);
  }

  lemma RulesReadable(d: Document, kind: RuleKind)
    requires WellTyped(d)
    ensures RulesOf(d.Rules(kind), kind).Some?
  {}

  // ---- DELETE ----

  /** Without its first policy for the key, the store is again what the directory holds;
      the reload cannot fail, and only those who had that policy lose it. */
  lemma DeleteIsMapRemoval(s: State, key: string, i: Identity)
    requires s.Synced() && Claimed(s.store, key).Some? && Determined(s.store, i)
    ensures var fn := Claimed(s.store, key).value.sourceFile;
      DeleteResult(s, key) == Removed && Delete(s, key).Synced() &&
      (Find(Delete(s, key).store, i) == Find(s.store, i) <==> !ServedFrom(s.store, i, fn))
  {
    var fn := Claimed(s.store, key).value.sourceFile;
    RemoveReloads(s.disk, fn);
    LoadedIsGood(s.disk);
    LoadedIsGood(s.disk - {fn});
    FrameOfChange(s.store, Delete(s, key).store, fn, None, i);
  }

  lemma UndoesWrite(s: State, s': State, key: string, fn: string, root: Json)
    requires s.Synced() && fn !in s.disk && s'.disk == s.disk[fn := root]
    requires Claimed(s'.store, key).Some? && Claimed(s'.store, key).value.sourceFile == fn
    ensures Delete(s', key) == s
  {
    assert s'.disk - {fn} == s.disk;
  }

  lemma OnlyWrittenClaims(a: seq<UserPolicy>, b: seq<UserPolicy>, fn: string, written: UserPolicy, key: string)
    requires Replaced(a, b, fn, Some(written)) && Claimed(a, key).None? && Claims(written, key)
    ensures Claimed(b, key) == Some(written)
  {
    assert written in b;
  }

  lemma PutWrites(s: State, key: string, payload: Json, alnum: AlNum, fn: string)
    requires fn == FileFor(s.store, key, alnum) && Validated(payload, fn).Some?
    ensures Put(s, key, payload, alnum).disk == s.disk[fn := Validated(payload, fn).value]
  {
    var written := s.(disk := s.disk[fn := Validated(payload, fn).value]);
    ReloadKeepsDisk(written);
    assert Put(s, key, payload, alnum) == Reload(written);
  }

  lemma ReloadKeepsDisk(s: State)
    ensures Reload(s).disk == s.disk
  {}

  lemma FreshFile(s: State, key: string, alnum: AlNum)
    requires Claimed(s.store, key).None?
    ensures FileFor(s.store, key, alnum) == SafeFilename(key, alnum)
  {}

  /** For a key without a policy, DELETE undoes a stored PUT: the directory and the store are
      again exactly what they were. */
  lemma DeleteUndoesPut(s: State, key: string, payload: Json, alnum: AlNum)
    requires s.Synced() && Sane(alnum) && AimedAt(payload, key) && PutResult(s, key, payload, alnum).Stored?
    requires Claimed(s.store, key).None? && SafeFilename(key, alnum) !in s.disk
    ensures Delete(Put(s, key, payload, alnum), key) == s
  {
    var s' := Put(s, key, payload, alnum);
    var fn := FileFor(s.store, key, alnum);
    FreshFile(s, key, alnum);
    PutReplaces(s, key, payload, alnum);
    AimedPolicy(payload, key, fn);
    PutWrites(s, key, payload, alnum, fn);
    OnlyWrittenClaims(s.store, s'.store, fn, PolicyIn(payload, fn), key);
    UndoesWrite(s, s', key, fn, Validated(payload, fn).value);
  }
}
