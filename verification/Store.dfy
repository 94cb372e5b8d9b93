/** The policy store: loading a directory of policy files, refusing duplicate matches, and
    finding the policy of an identity. */
module PolicyStores {
  import opened Collections
  import opened JsonValues
  import opened Policies

  /** Documents by file name; a file that is not YAML is a document that is not a mapping. */
  type Disk = map<string, Json>

  predicate NonEmpty(s: Option<string>) {
    s.Some? && s.value != ""
  }

  // ---- the duplicate check ----

  /** The two ways a policy names its user. */
  datatype Matcher = UserId | UserName

  function Claim(p: UserPolicy, m: Matcher): Option<string> {
    match m
    case UserId => p.matchUserId
    case UserName => p.matchUserName
  }

  /** `[p.match_… for p in policies if p.match_…]` */
  function Pool(ps: seq<UserPolicy>, m: Matcher): seq<string> {
    if ps == [] then []
    else
      var rest, claim := Pool(ps[..|ps| - 1], m), Claim(ps[|ps| - 1], m);
      if NonEmpty(claim) then rest + [claim.value] else rest
  }

  /** `pool.count(x) > 1` for some `x` */
  predicate HasDupes(pool: seq<string>) {
    exists x | x in pool :: multiset(pool)[x] > 1
  }

  predicate NoDuplicates(ps: seq<UserPolicy>) {
    !HasDupes(Pool(ps, UserId)) && !HasDupes(Pool(ps, UserName))
  }

  predicate SameClaim(p: UserPolicy, q: UserPolicy, m: Matcher) {
    NonEmpty(Claim(p, m)) && Claim(p, m) == Claim(q, m)
  }

  /** Two policies claim the same non-empty user id, or the same non-empty name. */
  predicate Clash(p: UserPolicy, q: UserPolicy) {
    SameClaim(p, q, UserId) || SameClaim(p, q, UserName)
  }

  ghost predicate Accepted(ps: seq<UserPolicy>) {
    forall i, j :: 0 <= i < j < |ps| ==> !Clash(ps[i], ps[j])
  }

  lemma {:induction false} PoolListed(ps: seq<UserPolicy>, m: Matcher, x: string)
    requires x != ""
    ensures x in Pool(ps, m) <==> exists p :: p in ps && Claim(p, m) == Some(x)
  {
    if ps == [] {
    } else {
      var n := |ps| - 1;
      PoolListed(ps[..n], m, x);
      assert forall p :: p in ps <==> p in ps[..n] || p == ps[n];
    }
  }

  lemma DupesSnoc(pool: seq<string>, x: string)
    ensures HasDupes(pool + [x]) <==> HasDupes(pool) || x in pool
  {
    if HasDupes(pool) {
      var y :| y in pool && multiset(pool)[y] > 1;
      assert y in pool + [x] && multiset(pool + [x])[y] > 1;
    }
    if x in pool {
      assert x in multiset(pool);
      assert x in pool + [x] && multiset(pool + [x])[x] > 1;
    }
    if HasDupes(pool + [x]) && x !in pool {
      var y :| y in pool + [x] && multiset(pool + [x])[y] > 1;
      assert y in multiset(pool) && y in pool;
    }
  }

  ghost predicate Apart(ps: seq<UserPolicy>, m: Matcher) {
    forall i, j :: 0 <= i < j < |ps| ==> !SameClaim(ps[i], ps[j], m)
  }

  ghost predicate ApartFrom(ps: seq<UserPolicy>, q: UserPolicy, m: Matcher) {
    forall p :: p in ps ==> !SameClaim(p, q, m)
  }

  lemma ApartSnoc(ps: seq<UserPolicy>, q: UserPolicy, m: Matcher)
    ensures Apart(ps + [q], m) <==> Apart(ps, m) && ApartFrom(ps, q, m)
  {
    var all := ps + [q];
    if Apart(all, m) {
      forall i, j | 0 <= i < j < |ps|
        ensures !SameClaim(ps[i], ps[j], m)
      {
        assert all[i] == ps[i] && all[j] == ps[j];
      }
      forall i | 0 <= i < |ps|
        ensures !SameClaim(ps[i], q, m)
      {
        assert all[i] == ps[i] && all[|ps|] == q;
      }
    }
  }

  lemma {:induction false} ApartExactly(ps: seq<UserPolicy>, m: Matcher)
    ensures !HasDupes(Pool(ps, m)) <==> Apart(ps, m)
  {
    if ps == [] {
    } else {
      var n := |ps| - 1;
      var front, last := ps[..n], ps[n];
      assert ps == front + [last];
      ApartExactly(front, m);
      ApartSnoc(front, last, m);
      if NonEmpty(Claim(last, m)) {
        DupesSnoc(Pool(front, m), Claim(last, m).value);
        PoolListed(front, m, Claim(last, m).value);
      }
    }
  }

  /** The counting check accepts exactly the lists in which no two policies claim one user. */
  lemma DuplicateCheckExact(ps: seq<UserPolicy>)
    ensures NoDuplicates(ps) <==> Accepted(ps)
  {
    ApartExactly(ps, UserId);
    ApartExactly(ps, UserName);
    if Accepted(ps) {
      forall i, j, m: Matcher | 0 <= i < j < |ps|
        ensures !SameClaim(ps[i], ps[j], m)
      {
        assert !Clash(ps[i], ps[j]);
      }
    }
  }

  lemma MembersApart(ps: seq<UserPolicy>, p: UserPolicy, q: UserPolicy)
    requires Accepted(ps) && p in ps && q in ps && p != q
    ensures !Clash(p, q)
  {
    var i :| 0 <= i < |ps| && ps[i] == p;
    var j :| 0 <= j < |ps| && ps[j] == q;
    if i < j {
      assert !Clash(ps[i], ps[j]);
    } else {
      assert !Clash(ps[j], ps[i]);
    }
  }

  // ---- finding ----

  predicate ById(p: UserPolicy, identity: Identity) {
    p.matchUserId == Some(identity.userId)
  }

  predicate ByName(p: UserPolicy, identity: Identity) {
    p.matchUserId.None? && p.matchUserName == Some(identity.name)
  }

  function Find(ps: seq<UserPolicy>, identity: Identity): Option<UserPolicy> {
    var byId := Keep(ps, (p: UserPolicy) => ById(p, identity));
    if byId != [] then Some(byId[0])
    else
      var byName := Keep(ps, (p: UserPolicy) => ByName(p, identity));
      if byName != [] then Some(byName[0]) else None
  }

  /** What the parser guarantees of every policy it returns: exactly one matcher is set. */
  predicate OneMatcher(p: UserPolicy) {
    NonEmpty(p.matchUserId) != NonEmpty(p.matchUserName)
  }

  lemma ParsedHasOneMatcher(root: Json, sourceFile: string)
    requires PolicyOf(root, sourceFile).Some?
    ensures OneMatcher(PolicyOf(root, sourceFile).value)
    ensures PolicyOf(root, sourceFile).value.sourceFile == sourceFile
  {}

  /** A policy an identity may be given: the one with its id, or, when there is none, the
      one with its name. */
  ghost predicate Eligible(ps: seq<UserPolicy>, p: UserPolicy, identity: Identity) {
    p in ps && (ById(p, identity) || (ByName(p, identity) && forall q :: q in ps ==> !ById(q, identity)))
  }

  /** No two policies have an empty user id, or the identity has an id to tell them by. */
  ghost predicate Determined(ps: seq<UserPolicy>, identity: Identity) {
    identity.userId != "" ||
    forall p, q :: p in ps && q in ps && p.matchUserId == Some("") && q.matchUserId == Some("") ==> p == q
  }

  ghost predicate Good(ps: seq<UserPolicy>) {
    Accepted(ps) && forall p :: p in ps ==> OneMatcher(p)
  }

  lemma EligibleIsUnique(ps: seq<UserPolicy>, p: UserPolicy, q: UserPolicy, identity: Identity)
    requires Good(ps) && Determined(ps, identity)
    requires Eligible(ps, p, identity) && Eligible(ps, q, identity)
    ensures p == q
  {
    if p != q { MembersApart(ps, p, q); }
  }

  /** `find` never invents a policy, prefers an id match, and misses none. */
  lemma FindIsEligible(ps: seq<UserPolicy>, identity: Identity)
    ensures Find(ps, identity).Some? ==> Eligible(ps, Find(ps, identity).value, identity)
    ensures Find(ps, identity).Some? ==> Find(ps, identity).value.Matches(identity)
    ensures Find(ps, identity).None? ==> forall p :: p in ps ==> !ById(p, identity) && !ByName(p, identity)
  {
    var byId := Keep(ps, (p: UserPolicy) => ById(p, identity));
    assert forall p :: p in ps && ById(p, identity) ==> p in byId;
    if byId != [] {
      assert byId[0] in byId;
    } else {
      var byName := Keep(ps, (p: UserPolicy) => ByName(p, identity));
      assert forall p :: p in ps && ByName(p, identity) ==> p in byName;
      if byName != [] { assert byName[0] in byName; }
    }
  }

  /** In a store that passed the duplicate check, an identity is given exactly the policy
      that is eligible for it. */
  lemma FindExact(ps: seq<UserPolicy>, identity: Identity, p: UserPolicy)
    requires Good(ps) && Determined(ps, identity)
    ensures Find(ps, identity) == Some(p) <==> Eligible(ps, p, identity)
  {
    FindIsEligible(ps, identity);
    if Find(ps, identity).Some? && Eligible(ps, p, identity) {
      EligibleIsUnique(ps, p, Find(ps, identity).value, identity);
    }
  }

  /** Whatever the order of the files, the same policy is found. */
  ghost predicate OrderFree(ps: seq<UserPolicy>, identity: Identity) {
    forall qs: seq<UserPolicy> :: multiset(qs) == multiset(ps) ==> Find(qs, identity) == Find(ps, identity)
  }

  /** Exactly when the order of the files does not matter: the identity has an id, as every
      user of HA does, or no two policies have an empty one. */
  lemma FindIsOrderFreeExactly(ps: seq<UserPolicy>, identity: Identity)
    requires Good(ps)
    ensures OrderFree(ps, identity) <==> Determined(ps, identity)
  {
    if Determined(ps, identity) {
      forall qs: seq<UserPolicy> | multiset(qs) == multiset(ps)
        ensures Find(qs, identity) == Find(ps, identity)
      {
        FindIsOrderFree(ps, qs, identity);
      }
    } else {
      var p, q :| p in ps && q in ps && p.matchUserId == Some("") && q.matchUserId == Some("") && p != q;
      var x := if Find(ps, identity) == Some(p) then q else p;
      FirstInOrder(ps, x, identity);
    }
  }

  /** A policy with the identity's id is found by putting its file first. */
  lemma FirstInOrder(ps: seq<UserPolicy>, x: UserPolicy, identity: Identity)
    requires x in ps && ById(x, identity)
    ensures exists qs: seq<UserPolicy> :: multiset(qs) == multiset(ps) && Find(qs, identity) == Some(x)
  {
    var i :| 0 <= i < |ps| && ps[i] == x;
    assert ps == ps[..i] + [x] + ps[i + 1..];
    FirstIsFound(x, ps[..i] + ps[i + 1..], identity);
    assert multiset([x] + (ps[..i] + ps[i + 1..])) == multiset(ps);
  }

  lemma FirstIsFound(x: UserPolicy, rest: seq<UserPolicy>, identity: Identity)
    requires ById(x, identity)
    ensures Find([x] + rest, identity) == Some(x)
  {
    var byId := (p: UserPolicy) => ById(p, identity);
    KeepConcat([x], rest, byId);
    KeepAll([x], byId);
  }

  /** Only which policies there are counts, not the order of the files. */
  lemma FindIsOrderFree(ps: seq<UserPolicy>, qs: seq<UserPolicy>, identity: Identity)
    requires Good(ps) && Determined(ps, identity)
    requires multiset(ps) == multiset(qs)
    ensures Accepted(qs) && Find(ps, identity) == Find(qs, identity)
  {
    SameMembers(ps, qs);
    AcceptedIsOrderFree(ps, qs);
    SameSetSameFind(ps, qs, identity);
  }

  lemma SameMembers(ps: seq<UserPolicy>, qs: seq<UserPolicy>)
    requires multiset(ps) == multiset(qs)
    ensures forall p :: p in ps <==> p in qs
  {
    forall p
      ensures p in ps <==> p in qs
    {
      assert p in ps <==> p in multiset(ps);
      assert p in qs <==> p in multiset(qs);
    }
  }

  lemma SameSetSameFind(ps: seq<UserPolicy>, qs: seq<UserPolicy>, identity: Identity)
    requires Good(ps) && Accepted(qs) && Determined(ps, identity)
    requires forall p :: p in ps <==> p in qs
    ensures Find(ps, identity) == Find(qs, identity)
  {
    FindIsEligible(ps, identity);
    FindIsEligible(qs, identity);
    if Find(ps, identity).Some? {
      FindExact(qs, identity, Find(ps, identity).value);
    }
  }

  lemma TwiceInSlice(qs: seq<UserPolicy>, i: nat, j: nat)
    requires i < j < |qs| && qs[i] == qs[j]
    ensures multiset(qs)[qs[i]] > 1
  {
    assert qs == qs[..j] + [qs[j]] + qs[j + 1..];
    assert qs[..j][i] == qs[i];
    assert qs[i] in multiset(qs[..j]);
  }

  lemma {:induction false} AcceptedOnce(ps: seq<UserPolicy>, p: UserPolicy)
    requires Accepted(ps) && OneMatcher(p)
    ensures multiset(ps)[p] <= 1
  {
    if ps == [] {
    } else {
      var n := |ps| - 1;
      var front := ps[..n];
      assert Accepted(front) by { assert forall i :: 0 <= i < n ==> front[i] == ps[i]; }
      AcceptedOnce(front, p);
      assert ps == front + [ps[n]];
      if ps[n] == p {
        forall i | 0 <= i < n
          ensures front[i] != p
        {
          assert !Clash(ps[i], ps[n]);
        }
        assert p !in multiset(front);
      }
    }
  }

  lemma AcceptedIsOrderFree(ps: seq<UserPolicy>, qs: seq<UserPolicy>)
    requires Good(ps)
    requires multiset(ps) == multiset(qs)
    ensures Accepted(qs)
  {
    SameMembers(ps, qs);
    forall i, j | 0 <= i < j < |qs|
      ensures !Clash(qs[i], qs[j])
    {
      assert qs[i] in ps && qs[j] in ps;
      if qs[i] == qs[j] {
        TwiceInSlice(qs, i, j);
        AcceptedOnce(ps, qs[i]);
      } else {
        MembersApart(ps, qs[i], qs[j]);
      }
    }
  }

  // ---- loading ----

  predicate EndsWith(s: string, suffix: string) {
    |s| >= |suffix| && s[|s| - |suffix|..] == suffix
  }

  predicate Loadable(fn: string) {
    (EndsWith(fn, ".yaml") || EndsWith(fn, ".yml")) && !(fn != "" && fn[0] == '.')
  }

  /** The files that are read: a name of the right ending that does not begin with a dot. */
  lemma LoadableExactly(fn: string)
    ensures Loadable(fn) <==>
      fn != "" && fn[0] != '.' && exists stem :: fn == stem + ".yaml" || fn == stem + ".yml"
  {
    if EndsWith(fn, ".yaml") { assert fn == fn[..|fn| - 5] + ".yaml"; }
    if EndsWith(fn, ".yml") { assert fn == fn[..|fn| - 4] + ".yml"; }
    if stem :| fn == stem + ".yaml" || fn == stem + ".yml" {
      assert fn == stem + ".yaml" ==> fn[|stem|..] == ".yaml";
      assert fn == stem + ".yml" ==> fn[|stem|..] == ".yml";
    }
  }

  /** Backups and half-written files of a policy file are never read. */
  lemma LeftoversAreNotLoaded(fn: string, stamp: string)
    requires 'l' !in stamp
    ensures !Loadable(fn + ".tmp") && !Loadable(fn + ".bak-" + stamp)
  {
    var tmp, bak := fn + ".tmp", fn + ".bak-" + stamp;
    assert tmp[|tmp| - 1] == 'p';
    assert bak[|bak| - 1] == if stamp == "" then '-' else stamp[|stamp| - 1];
    LastLetter(tmp);
    LastLetter(bak);
  }

  lemma LastLetter(fn: string)
    ensures Loadable(fn) ==> fn[|fn| - 1] == 'l'
  {
    if EndsWith(fn, ".yaml") { assert fn[|fn| - 5..][4] == fn[|fn| - 1]; }
    if EndsWith(fn, ".yml") { assert fn[|fn| - 4..][3] == fn[|fn| - 1]; }
  }

  predicate Parses(disk: Disk, fn: string)
    requires fn in disk
  {
    PolicyOf(disk[fn], fn).Some?
  }

  /** The files of the directory that are read, in the order they are read. */
  function Files(disk: Disk): seq<string> {
    Keep(Sorted(disk.Keys), Loadable)
  }

  function ParsedAll(disk: Disk, files: seq<string>): (r: seq<UserPolicy>)
    requires forall fn :: fn in files ==> fn in disk && Parses(disk, fn)
    ensures |r| == |files|
  {
    seq(|files|, i requires 0 <= i < |files| && files[i] in disk && Parses(disk, files[i]) =>
      PolicyOf(disk[files[i]], files[i]).value)
  }

  /** `load_dir`; `None` is a `PolicyError`. */
  function Load(disk: Disk): Option<seq<UserPolicy>> {
    var files := Files(disk);
    if exists fn | fn in files :: !Parses(disk, fn) then None
    else
      var ps := ParsedAll(disk, files);
      if NoDuplicates(ps) then Some(ps) else None
  }

  lemma ParsedSnoc(disk: Disk, files: seq<string>, fn: string)
    requires (forall f :: f in files ==> f in disk && Parses(disk, f)) && fn in disk && Parses(disk, fn)
    ensures (forall f :: f in files + [fn] ==> f in disk && Parses(disk, f))
    ensures ParsedAll(disk, files + [fn]) == ParsedAll(disk, files) + [PolicyOf(disk[fn], fn).value]
  {}

  ghost predicate LoadedSoFar(disk: Disk, files: seq<string>, policies: seq<UserPolicy>) {
    (forall fn :: fn in files ==> fn in disk && Parses(disk, fn)) && policies == ParsedAll(disk, files)
  }

  lemma LoadFails(disk: Disk, fn: string)
    requires fn in disk && Loadable(fn) && !Parses(disk, fn)
    ensures Load(disk).None?
  {
    assert fn in Files(disk);
  }

  method LoadDir(disk: Disk) returns (r: Option<seq<UserPolicy>>)
    ensures r == Load(disk)
  {
    var names := Sorted(disk.Keys);
    var policies: seq<UserPolicy> := [];
    for i := 0 to |names|
      invariant LoadedSoFar(disk, Keep(names[..i], Loadable), policies)
    {
      var fn := names[i];
      KeepSnoc(names, i, Loadable);
      if Loadable(fn) {
        var policy := ParsePolicy(disk[fn], fn);
        if policy.None? {
          LoadFails(disk, fn);
          return None;
        }
        ParsedSnoc(disk, Keep(names[..i], Loadable), fn);
        policies := policies + [policy.value];
      }
    }
    assert names[..|names|] == names;
    return if NoDuplicates(policies) then Some(policies) else None;
  }

  /** The policy a file holds, if it is read at all. */
  ghost predicate Holds(disk: Disk, fn: string, p: UserPolicy) {
    fn in disk && Loadable(fn) && PolicyOf(disk[fn], fn) == Some(p)
  }

  /** No two files hold policies that claim one user. */
  ghost predicate Disjoint(disk: Disk) {
    forall fn, gn, p, q :: Holds(disk, fn, p) && Holds(disk, gn, q) && fn != gn ==> !Clash(p, q)
  }

  ghost predicate Sound(disk: Disk) {
    forall fn :: fn in disk && Loadable(fn) ==> Parses(disk, fn)
  }

  lemma FilesListed(disk: Disk)
    ensures forall fn :: fn in Files(disk) <==> fn in disk && Loadable(fn)
    ensures Increasing(Files(disk))
  {
    SortedIncreasing(disk.Keys);
    KeepIncreasing(Sorted(disk.Keys), Loadable);
  }

  lemma LoadedPolicies(disk: Disk)
    requires Sound(disk)
    ensures forall fn :: fn in Files(disk) ==> fn in disk && Parses(disk, fn)
    ensures forall p :: p in ParsedAll(disk, Files(disk)) <==> exists fn :: Holds(disk, fn, p)
    ensures Accepted(ParsedAll(disk, Files(disk))) <==> Disjoint(disk)
  {
    FilesListed(disk);
    forall p
      ensures p in ParsedAll(disk, Files(disk)) <==> exists fn :: Holds(disk, fn, p)
    {
      ParsedFrom(disk, Files(disk), p);
    }
    AcceptedIffDisjoint(disk);
  }

  lemma ParsedFrom(disk: Disk, files: seq<string>, p: UserPolicy)
    requires forall fn :: fn in files ==> fn in disk && Parses(disk, fn)
    requires forall fn :: fn in files <==> fn in disk && Loadable(fn)
    ensures p in ParsedAll(disk, files) <==> exists fn :: Holds(disk, fn, p)
  {
    var ps := ParsedAll(disk, files);
    if p in ps {
      var i :| 0 <= i < |ps| && ps[i] == p;
      assert files[i] in files;
      assert Holds(disk, files[i], p);
    }
    if fn :| Holds(disk, fn, p) {
      var i :| 0 <= i < |files| && files[i] == fn;
      assert ps[i] == p;
    }
  }

  lemma AcceptedIffDisjoint(disk: Disk)
    requires Sound(disk) && forall fn :: fn in Files(disk) ==> fn in disk && Parses(disk, fn)
    ensures Accepted(ParsedAll(disk, Files(disk))) <==> Disjoint(disk)
  {
    FilesListed(disk);
    var files := Files(disk);
    var ps := ParsedAll(disk, files);
    if Accepted(ps) {
      forall fn, gn, p, q | Holds(disk, fn, p) && Holds(disk, gn, q) && fn != gn
        ensures !Clash(p, q)
      {
        var i :| 0 <= i < |files| && files[i] == fn;
        var j :| 0 <= j < |files| && files[j] == gn;
        assert ps[i] == p && ps[j] == q;
        assert if i < j then !Clash(ps[i], ps[j]) else !Clash(ps[j], ps[i]);
      }
    }
    if Disjoint(disk) {
      forall i, j | 0 <= i < j < |ps|
        ensures !Clash(ps[i], ps[j])
      {
        assert files[i] in files && files[j] in files && files[i] != files[j];
        assert Holds(disk, files[i], ps[i]) && Holds(disk, files[j], ps[j]);
      }
    }
  }

  /** One policy a file, in the order of the names. */
  lemma LoadInOrder(disk: Disk, i: nat, j: nat)
    requires Load(disk).Some? && i < j < |Load(disk).value|
    ensures var ps := Load(disk).value;
      Holds(disk, ps[i].sourceFile, ps[i]) && ps[i].sourceFile != ps[j].sourceFile &&
      StrLe(ps[i].sourceFile, ps[j].sourceFile)
  {
    var files := Files(disk);
    FilesListed(disk);
    assert files[i] in files && files[j] in files;
    assert Load(disk).value == ParsedAll(disk, files);
  }

  /** Loading succeeds exactly when every policy file parses and no two of them claim one
      user; the store then holds exactly the policies of the files. */
  lemma LoadExact(disk: Disk)
    ensures Load(disk).Some? <==> Sound(disk) && Disjoint(disk)
    ensures Load(disk).Some? ==> Contents(disk, Load(disk).value)
  {
    if Sound(disk) {
      SoundLoad(disk);
    } else {
      var fn :| fn in disk && Loadable(fn) && !Parses(disk, fn);
      LoadFails(disk, fn);
    }
  }

  /** The store holds exactly the policies of the files. */
  ghost predicate Contents(disk: Disk, ps: seq<UserPolicy>) {
    && Accepted(ps)
    && (forall p :: p in ps <==> exists fn :: Holds(disk, fn, p))
    && (forall p :: p in ps ==> OneMatcher(p))
  }

  lemma SoundLoad(disk: Disk)
    requires Sound(disk)
    ensures Load(disk).Some? <==> Disjoint(disk)
    ensures Load(disk).Some? ==> Contents(disk, Load(disk).value)
  {
    LoadedPolicies(disk);
    var ps := ParsedAll(disk, Files(disk));
    DuplicateCheckExact(ps);
    forall p | p in ps
      ensures OneMatcher(p)
    {
      var fn :| Holds(disk, fn, p);
      ParsedHasOneMatcher(disk[fn], fn);
    }
  }

  // ---- where the order does matter ----

  /** A policy file that sets an empty user id beside a name. */
  function EmptyIdFile(name: string): Json {
    JObj(map["user" := JObj(map["id" := JStr(""), "name" := JStr(name)])])
  }

  lemma EmptyIdParses(name: string, fn: string)
    requires name != ""
    ensures PolicyOf(EmptyIdFile(name), fn).Some?
    ensures var p := PolicyOf(EmptyIdFile(name), fn).value;
      p.matchUserId == Some("") && p.matchUserName == Some(name) && p.sourceFile == fn
  {
    var root := EmptyIdFile(name).fields;
    var user := root["user"].fields;
    assert root.Keys == {"user"} && user.Keys == {"id", "name"};
    assert Get(user, "id") == JStr("") && Get(user, "name") == JStr(name);
    assert "allow" !in root && "dashboards" !in root by {
      assert |"user"| == 4 && |"allow"| == 5 && |"dashboards"| == 10;
    }
  }

  /** Two policy files that claim different users load, and both policies are in the store. */
  lemma TwoFilesLoad(disk: Disk, fn: string, gn: string, p: UserPolicy, q: UserPolicy)
    requires disk.Keys == {fn, gn} && fn != gn
    requires Holds(disk, fn, p) && Holds(disk, gn, q) && !Clash(p, q) && !Clash(q, p)
    ensures Load(disk).Some? && p in Load(disk).value && q in Load(disk).value
  {
    assert Sound(disk);
    forall hn, kn, r, t | Holds(disk, hn, r) && Holds(disk, kn, t) && hn != kn
      ensures !Clash(r, t)
    {
      assert hn in disk.Keys && kn in disk.Keys;
    }
    LoadExact(disk);
  }

  lemma EmptyIdsLoad(disk: Disk, fn: string, gn: string, a: string, b: string, identity: Identity)
    requires fn != gn && Loadable(fn) && Loadable(gn) && disk.Keys == {fn, gn}
    requires a != "" && b != "" && a != b && identity.userId == ""
    requires disk[fn] == EmptyIdFile(a) && disk[gn] == EmptyIdFile(b)
    ensures Load(disk).Some? && Good(Load(disk).value) && !Determined(Load(disk).value, identity)
  {
    EmptyIdParses(a, fn);
    EmptyIdParses(b, gn);
    var p, q := PolicyOf(disk[fn], fn).value, PolicyOf(disk[gn], gn).value;
    TwoFilesLoad(disk, fn, gn, p, q);
    LoadExact(disk);
  }

  lemma TwoNames() returns (fn: string, gn: string)
    ensures fn != gn && Loadable(fn) && Loadable(gn)
  {
    fn, gn := "a.yaml", "b.yaml";
    assert fn[1..] == ".yaml" && gn[1..] == ".yaml" && fn[0] != gn[0];
  }

  /** Two such files load, and an identity without an id is then given whichever is read first. */
  lemma EmptyIdIsOrderDependent()
    ensures exists disk: Disk, identity: Identity ::
      Load(disk).Some? && Good(Load(disk).value) && !OrderFree(Load(disk).value, identity)
  {
    var fn, gn := TwoNames();
    var disk: Disk := map[fn := EmptyIdFile("a"), gn := EmptyIdFile("b")];
    var identity := Identity("", "", false, false);
    EmptyIdsLoad(disk, fn, gn, "a", "b", identity);
    FindIsOrderFreeExactly(Load(disk).value, identity);
  }
}
