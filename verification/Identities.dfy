/** Token -> identity resolution: the coroutine `resolve`, cut at its suspension points,
    with any number of calls interleaved over one cache and one lock per token. The token
    digest is taken to be injective, so tokens stand for their own keys; the question put
    to HA is an oracle. */
module IdentityCache {
  import opened Collections
  import opened Policies

  type Token = string
  type LockId = nat
  type TaskId = nat

  const NEGATIVE_TTL := 30.0
  const MAX_ENTRIES := 10_000

  datatype Entry = Entry(expiry: real, identity: Option<Identity>)

  datatype Resolver = Resolver(cache: map<Token, Entry>, locks: map<Token, LockId>, held: set<LockId>, nextLock: LockId)

  const EMPTY := Resolver(map[], map[], {}, 0)

  function Hit(r: Resolver, token: Token, now: real): Option<Option<Identity>> {
    if token in r.cache && now < r.cache[token].expiry then Some(r.cache[token].identity) else None
  }

  /** `setdefault`: the lock of a token is made once and never replaced. */
  function WithLock(r: Resolver, token: Token): Resolver {
    if token in r.locks then r else r.(locks := r.locks[token := r.nextLock], nextLock := r.nextLock + 1)
  }

  /** How long an answer is kept, counted from just before the question. */
  function TtlOf(ttl: real, identity: Option<Identity>): real {
    if identity.Some? then ttl else NEGATIVE_TTL
  }

  function Bounded(cache: map<Token, Entry>): map<Token, Entry> {
    if |cache| > MAX_ENTRIES then map[] else cache
  }

  function Remember(r: Resolver, token: Token, entry: Entry): Resolver {
    r.(cache := Bounded(r.cache[token := entry]))
  }

  function Release(r: Resolver, l: LockId): Resolver {
    r.(held := r.held - {l})
  }

  /** The resolver object; each method is one stretch of `resolve` without an `await`. */
  class IdentityResolver {
    const ttl: real
    var cache: map<Token, Entry>
    var locks: map<Token, LockId>
    var held: set<LockId>
    var nextLock: LockId

    constructor (ttl: real)
      ensures this.ttl == ttl && State() == EMPTY
    {
      this.ttl := ttl;
      cache, locks, held, nextLock := map[], map[], {}, 0;
    }

    function State(): Resolver
      reads this
    {
      Resolver(cache, locks, held, nextLock)
    }

    /** Up to the lock: a cached answer, or the lock to wait for. */
    method Begin(token: Token, now: real) returns (hit: Option<Option<Identity>>, lock: LockId)
      modifies this
      ensures hit == Hit(old(State()), token, now)
      ensures hit.Some? ==> State() == old(State())
      ensures hit.None? ==> State() == WithLock(old(State()), token) && token in locks && lock == locks[token]
    {
      lock := 0;
      if token in cache && now < cache[token].expiry {
        return Some(cache[token].identity), 0;
      }
      if token !in locks {
        locks := locks[token := nextLock];
        nextLock := nextLock + 1;
      }
      return None, locks[token];
    }

    /** With the lock just taken: the second look at the cache. A miss keeps the lock. */
    method Recheck(token: Token, lock: LockId, now: real) returns (hit: Option<Option<Identity>>)
      requires lock !in held
      modifies this
      ensures hit == Hit(old(State()), token, now)
      ensures State() == if hit.Some? then old(State()) else old(State()).(held := old(held) + {lock})
    {
      held := held + {lock};
      if token in cache && now < cache[token].expiry {
        held := held - {lock};
        return Some(cache[token].identity);
      }
      return None;
    }

    /** HA has answered the question asked at `asked`. */
    method Learn(token: Token, lock: LockId, asked: real, identity: Option<Identity>)
      modifies this
      ensures State() == Release(Remember(old(State()), token, Entry(asked + TtlOf(ttl, identity), identity)), lock)
    {
      cache := cache[token := Entry(asked + (if identity.Some? then ttl else NEGATIVE_TTL), identity)];
      if |cache| > MAX_ENTRIES {
        cache := map[];
      }
      held := held - {lock};
    }

    /** The question failed, or the caller went away: nothing is cached. */
    method GiveUp(lock: LockId)
      modifies this
      ensures State() == Release(old(State()), lock)
    {
      held := held - {lock};
    }
  }

  // ---- interleaved calls ----

  datatype Source = NoToken | FromCache | FromHa | Failure

  /** One call of `resolve`, by where it is suspended. */
  datatype Task =
    | Waiting(token: Token, lock: LockId)
    | Asking(token: Token, lock: LockId, asked: real)
    | Returned(token: Token, identity: Option<Identity>, source: Source, at: real)

  /** An answer HA gave to the question for `token` put at `asked`. */
  datatype Report = Report(token: Token, asked: real, identity: Option<Identity>)

  datatype World = World(now: real, resolver: Resolver, tasks: map<TaskId, Task>, reports: seq<Report>)

  datatype Action =
    | Tick(elapsed: real)
    | Call(task: TaskId, token: Token)
    | Acquire(task: TaskId)
    | HaAnswers(task: TaskId, identity: Option<Identity>)
    | HaFails(task: TaskId)
    | Cancel(task: TaskId)

  function Start(now: real): World {
    World(now, EMPTY, map[], [])
  }

  function Goto(w: World, t: TaskId, task: Task): World {
    w.(tasks := w.tasks[t := task])
  }

  function OnCall(w: World, t: TaskId, token: Token): World {
    var hit := Hit(w.resolver, token, w.now);
    if token == "" then Goto(w, t, Returned(token, None, NoToken, w.now))
    else if hit.Some? then Goto(w, t, Returned(token, hit.value, FromCache, w.now))
    else
      var r := WithLock(w.resolver, token);
      Goto(w.(resolver := r), t, Waiting(token, r.locks[token]))
  }

  function OnAcquire(w: World, t: TaskId, token: Token, lock: LockId): World {
    var hit := Hit(w.resolver, token, w.now);
    if hit.Some? then Goto(w, t, Returned(token, hit.value, FromCache, w.now))
    else Goto(w.(resolver := w.resolver.(held := w.resolver.held + {lock})), t, Asking(token, lock, w.now))
  }

  function OnAnswer(ttl: real, w: World, t: TaskId, task: Task, identity: Option<Identity>): World
    requires task.Asking?
  {
    var learnt := Remember(w.resolver, task.token, Entry(task.asked + TtlOf(ttl, identity), identity));
    Goto(w.(resolver := Release(learnt, task.lock), reports := w.reports + [Report(task.token, task.asked, identity)]),
         t, Returned(task.token, identity, FromHa, w.now))
  }

  function OnFailure(w: World, t: TaskId, task: Task): World
    requires task.Asking?
  {
    Goto(w.(resolver := Release(w.resolver, task.lock)), t, Returned(task.token, None, Failure, w.now))
  }

  /** One step; an action whose guard does not hold changes nothing. */
  function Next(ttl: real, w: World, a: Action): World {
    match a
    case Tick(elapsed) => if elapsed >= 0.0 then w.(now := w.now + elapsed) else w
    case Call(t, token) => if t in w.tasks then w else OnCall(w, t, token)
    case Acquire(t) =>
      if t in w.tasks && w.tasks[t].Waiting? && w.tasks[t].lock !in w.resolver.held
      then OnAcquire(w, t, w.tasks[t].token, w.tasks[t].lock) else w
    case HaAnswers(t, identity) =>
      if t in w.tasks && w.tasks[t].Asking? then OnAnswer(ttl, w, t, w.tasks[t], identity) else w
    case HaFails(t) =>
      if t in w.tasks && w.tasks[t].Asking? then OnFailure(w, t, w.tasks[t]) else w
    case Cancel(t) =>
      if t !in w.tasks || w.tasks[t].Returned? then w
      else if w.tasks[t].Asking? then OnFailure(w, t, w.tasks[t])
      else Goto(w, t, Returned(w.tasks[t].token, None, Failure, w.now))
  }

  /** The event loop resuming one call at a time: each action runs the stretch of `resolve`
      that it makes runnable, on the shared resolver. */
  class Loop {
    const resolver: IdentityResolver
    var now: real
    var tasks: map<TaskId, Task>
    ghost var reports: seq<Report>

    constructor (resolver: IdentityResolver, now: real)
      requires resolver.State() == EMPTY
      ensures this.resolver == resolver && State() == Start(now)
    {
      this.resolver := resolver;
      this.now, tasks, reports := now, map[], [];
    }

    ghost function State(): World
      reads this, resolver
    {
      World(now, resolver.State(), tasks, reports)
    }

    method CallResolve(t: TaskId, token: Token)
      modifies this, resolver
      ensures State() == OnCall(old(State()), t, token)
    {
      if token == "" {
        tasks := tasks[t := Returned(token, None, NoToken, now)];
        return;
      }
      var hit, lock := resolver.Begin(token, now);
      tasks := tasks[t := if hit.Some? then Returned(token, hit.value, FromCache, now) else Waiting(token, lock)];
    }

    method TakeLock(t: TaskId, token: Token, lock: LockId)
      requires lock !in resolver.held
      modifies this, resolver
      ensures State() == OnAcquire(old(State()), t, token, lock)
    {
      var hit := resolver.Recheck(token, lock, now);
      tasks := tasks[t := if hit.Some? then Returned(token, hit.value, FromCache, now) else Asking(token, lock, now)];
    }

    method TakeAnswer(t: TaskId, task: Task, identity: Option<Identity>)
      requires task.Asking?
      modifies this, resolver
      ensures State() == OnAnswer(resolver.ttl, old(State()), t, task, identity)
    {
      resolver.Learn(task.token, task.lock, task.asked, identity);
      tasks := tasks[t := Returned(task.token, identity, FromHa, now)];
      reports := reports + [Report(task.token, task.asked, identity)];
    }

    method Fail(t: TaskId, task: Task)
      requires task.Asking?
      modifies this, resolver
      ensures State() == OnFailure(old(State()), t, task)
    {
      resolver.GiveUp(task.lock);
      tasks := tasks[t := Returned(task.token, None, Failure, now)];
    }

    method Resume(a: Action)
      modifies this, resolver
      ensures State() == Next(resolver.ttl, old(State()), a)
    {
      match a
      case Tick(elapsed) => if elapsed >= 0.0 { now := now + elapsed; }
      case Call(t, token) => if t !in tasks { CallResolve(t, token); }
      case Acquire(t) =>
        if t in tasks && tasks[t].Waiting? && tasks[t].lock !in resolver.held {
          TakeLock(t, tasks[t].token, tasks[t].lock);
        }
      case HaAnswers(t, identity) =>
        if t in tasks && tasks[t].Asking? { TakeAnswer(t, tasks[t], identity); }
      case HaFails(t) =>
        if t in tasks && tasks[t].Asking? { Fail(t, tasks[t]); }
      case Cancel(t) =>
        if t in tasks && tasks[t].Asking? {
          Fail(t, tasks[t]);
        } else if t in tasks && tasks[t].Waiting? {
          tasks := tasks[t := Returned(tasks[t].token, None, Failure, now)];
        }
    }
  }

  function After(ttl: real, now: real, actions: seq<Action>): World {
    if actions == [] then Start(now)
    else Next(ttl, After(ttl, now, actions[..|actions| - 1]), actions[|actions| - 1])
  }

  // ---- one question in flight per token ----

  ghost predicate LocksInOrder(r: Resolver) {
    && (forall k :: k in r.locks ==> r.locks[k] < r.nextLock)
    && (forall k, j :: k in r.locks && j in r.locks && r.locks[k] == r.locks[j] ==> k == j)
  }

  ghost predicate UsesItsLock(r: Resolver, task: Task) {
    !task.Returned? ==> task.token in r.locks && task.lock == r.locks[task.token]
  }

  /** Both have a question out under one lock. */
  predicate AskUnder(a: Task, b: Task) {
    a.Asking? && b.Asking? && a.lock == b.lock
  }

  ghost predicate Locked(w: World) {
    && LocksInOrder(w.resolver)
    && (forall t :: t in w.tasks ==> UsesItsLock(w.resolver, w.tasks[t]))
    && (forall t :: t in w.tasks && w.tasks[t].Asking? ==> w.tasks[t].lock in w.resolver.held)
    && (forall t, u :: t in w.tasks && u in w.tasks && AskUnder(w.tasks[t], w.tasks[u]) ==> t == u)
    && (forall l :: l in w.resolver.held ==> exists t :: t in w.tasks && w.tasks[t].Asking? && w.tasks[t].lock == l)
  }

  /** The task `t` stops asking, or never asked; the lock it held, if any, is free again. */
  lemma ReturnKeepsLocked(w: World, t: TaskId, done: Task, cache: map<Token, Entry>, reports: seq<Report>)
    requires Locked(w) && done.Returned?
    requires t in w.tasks ==> !w.tasks[t].Asking?
    ensures Locked(Goto(w, t, done).(resolver := w.resolver.(cache := cache), reports := reports))
  {
    var w' := Goto(w, t, done).(resolver := w.resolver.(cache := cache), reports := reports);
    forall l | l in w'.resolver.held
      ensures exists u :: u in w'.tasks && w'.tasks[u].Asking? && w'.tasks[u].lock == l
    {
      var u :| u in w.tasks && w.tasks[u].Asking? && w.tasks[u].lock == l;
      assert w'.tasks[u] == w.tasks[u];
    }
  }

  lemma ReleaseKeepsLocked(w: World, t: TaskId, done: Task, cache: map<Token, Entry>, reports: seq<Report>)
    requires Locked(w) && done.Returned?
    requires t in w.tasks && w.tasks[t].Asking?
    ensures var released := Release(w.resolver, w.tasks[t].lock);
      Locked(Goto(w, t, done).(resolver := released.(cache := cache), reports := reports))
  {
    var w' := Goto(w, t, done).(resolver := Release(w.resolver, w.tasks[t].lock).(cache := cache), reports := reports);
    forall l | l in w'.resolver.held
      ensures exists u :: u in w'.tasks && w'.tasks[u].Asking? && w'.tasks[u].lock == l
    {
      var u :| u in w.tasks && w.tasks[u].Asking? && w.tasks[u].lock == l;
      assert u != t && w'.tasks[u] == w.tasks[u];
    }
  }

  lemma WaitKeepsLocked(w: World, t: TaskId, token: Token)
    requires Locked(w) && t !in w.tasks
    ensures var r := WithLock(w.resolver, token);
      Locked(Goto(w.(resolver := r), t, Waiting(token, r.locks[token])))
  {
    var r := WithLock(w.resolver, token);
    var w' := Goto(w.(resolver := r), t, Waiting(token, r.locks[token]));
    forall l | l in w'.resolver.held
      ensures exists u :: u in w'.tasks && w'.tasks[u].Asking? && w'.tasks[u].lock == l
    {
      var u :| u in w.tasks && w.tasks[u].Asking? && w.tasks[u].lock == l;
      assert w'.tasks[u] == w.tasks[u];
    }
  }

  lemma AskKeepsLocked(w: World, t: TaskId)
    requires Locked(w) && t in w.tasks && w.tasks[t].Waiting? && w.tasks[t].lock !in w.resolver.held
    ensures var lock := w.tasks[t].lock;
      var holding := w.(resolver := w.resolver.(held := w.resolver.held + {lock}));
      Locked(Goto(holding, t, Asking(w.tasks[t].token, lock, w.now)))
  {
    var lock := w.tasks[t].lock;
    var holding := w.(resolver := w.resolver.(held := w.resolver.held + {lock}));
    var w' := Goto(holding, t, Asking(w.tasks[t].token, lock, w.now));
    forall l | l in w'.resolver.held
      ensures exists u :: u in w'.tasks && w'.tasks[u].Asking? && w'.tasks[u].lock == l
    {
      HeldByAsker(w, t, lock, l);
    }
    forall u | u in w.tasks && w.tasks[u].Asking?
      ensures w.tasks[u].lock != lock
    {
      assert w.tasks[u].lock in w.resolver.held;
    }
  }

  lemma HeldByAsker(w: World, t: TaskId, lock: LockId, l: LockId)
    requires t in w.tasks && !w.tasks[t].Asking? && (l in w.resolver.held || l == lock)
    requires l in w.resolver.held ==> exists u :: u in w.tasks && w.tasks[u].Asking? && w.tasks[u].lock == l
    ensures var tasks := w.tasks[t := Asking(w.tasks[t].token, lock, w.now)];
      exists u :: u in tasks && tasks[u].Asking? && tasks[u].lock == l
  {
    var tasks := w.tasks[t := Asking(w.tasks[t].token, lock, w.now)];
    if l == lock {
      assert tasks[t].lock == l;
    } else {
      var u :| u in w.tasks && w.tasks[u].Asking? && w.tasks[u].lock == l;
      assert tasks[u] == w.tasks[u];
    }
  }

  lemma LockedStep(ttl: real, w: World, a: Action)
    requires Locked(w)
    ensures Locked(Next(ttl, w, a))
  {
    var w' := Next(ttl, w, a);
    match a
    case Tick(_) =>
    case Call(t, token) =>
      if t !in w.tasks {
        if w'.tasks[t].Waiting? {
          WaitKeepsLocked(w, t, token);
        } else {
          ReturnKeepsLocked(w, t, w'.tasks[t], w.resolver.cache, w.reports);
        }
      }
    case Acquire(t) =>
      if t in w.tasks && w.tasks[t].Waiting? && w.tasks[t].lock !in w.resolver.held {
        if w'.tasks[t].Asking? {
          AskKeepsLocked(w, t);
        } else {
          ReturnKeepsLocked(w, t, w'.tasks[t], w.resolver.cache, w.reports);
        }
      }
    case HaAnswers(t, _) =>
      if t in w.tasks && w.tasks[t].Asking? {
        ReleaseKeepsLocked(w, t, w'.tasks[t], w'.resolver.cache, w'.reports);
      }
    case HaFails(t) =>
      if t in w.tasks && w.tasks[t].Asking? {
        ReleaseKeepsLocked(w, t, w'.tasks[t], w.resolver.cache, w.reports);
      }
    case Cancel(t) =>
      if t in w.tasks && w.tasks[t].Asking? {
        ReleaseKeepsLocked(w, t, w'.tasks[t], w.resolver.cache, w.reports);
      } else if t in w.tasks && w.tasks[t].Waiting? {
        ReturnKeepsLocked(w, t, w'.tasks[t], w.resolver.cache, w.reports);
      }
  }

  lemma {:induction false} AlwaysLocked(ttl: real, now: real, actions: seq<Action>)
    ensures Locked(After(ttl, now, actions))
  {
    if actions == [] {
    } else {
      AlwaysLocked(ttl, now, actions[..|actions| - 1]);
      LockedStep(ttl, After(ttl, now, actions[..|actions| - 1]), actions[|actions| - 1]);
    }
  }

  /** Both have a question out about one token. */
  predicate AskAbout(a: Task, b: Task) {
    a.Asking? && b.Asking? && a.token == b.token
  }

  /** However the calls interleave, at most one of them has a question to HA in flight for
      a given token; and a call still waiting is kept out only by such a question, so the
      lock is never lost to a failed or cancelled call. */
  lemma OneQuestionPerToken(ttl: real, now: real, actions: seq<Action>, t: TaskId, u: TaskId)
    ensures var w := After(ttl, now, actions);
      (t in w.tasks && u in w.tasks && AskAbout(w.tasks[t], w.tasks[u]) ==> t == u) &&
      (t in w.tasks && w.tasks[t].Waiting? ==>
        (w.tasks[t].lock in w.resolver.held <==>
           exists v :: v in w.tasks && w.tasks[v].Asking? && w.tasks[v].token == w.tasks[t].token))
  {
    AlwaysLocked(ttl, now, actions);
    var w := After(ttl, now, actions);
    if t in w.tasks && u in w.tasks && AskAbout(w.tasks[t], w.tasks[u]) {
      assert AskUnder(w.tasks[t], w.tasks[u]);
    }
    if t in w.tasks && w.tasks[t].Waiting? && w.tasks[t].lock in w.resolver.held {
      var v :| v in w.tasks && w.tasks[v].Asking? && w.tasks[v].lock == w.tasks[t].lock;
      assert w.tasks[v].token == w.tasks[t].token;
    }
  }

  // ---- what the cache serves ----

  /** HA reported this identity for this token when asked, less than its time to live ago. */
  ghost predicate Recent(ttl: real, reports: seq<Report>, token: Token, identity: Option<Identity>, at: real) {
    exists r :: r in reports && r.token == token && r.identity == identity &&
      r.asked <= at < r.asked + TtlOf(ttl, identity)
  }

  ghost predicate Told(reports: seq<Report>, token: Token, identity: Option<Identity>) {
    exists r :: r in reports && r.token == token && r.identity == identity
  }

  ghost predicate Backed(ttl: real, reports: seq<Report>, token: Token, entry: Entry, now: real) {
    exists r :: r in reports && r.token == token && r.identity == entry.identity &&
      entry.expiry == r.asked + TtlOf(ttl, r.identity) && r.asked <= now
  }

  /** What a finished call may have returned. */
  ghost predicate Justified(ttl: real, reports: seq<Report>, task: Task)
    requires task.Returned?
  {
    match task.source
    case NoToken => task.token == "" && task.identity.None?
    case FromCache => Recent(ttl, reports, task.token, task.identity, task.at)
    case FromHa => Told(reports, task.token, task.identity)
    case Failure => task.identity.None?
  }

  ghost predicate Truthful(ttl: real, w: World) {
    && |w.resolver.cache| <= MAX_ENTRIES
    && (forall k :: k in w.resolver.cache ==> Backed(ttl, w.reports, k, w.resolver.cache[k], w.now))
    && (forall t :: t in w.tasks && w.tasks[t].Asking? ==> w.tasks[t].asked <= w.now)
    && (forall t :: t in w.tasks && w.tasks[t].Returned? ==> Justified(ttl, w.reports, w.tasks[t]))
  }

  lemma HitIsRecent(ttl: real, w: World, token: Token)
    requires Truthful(ttl, w) && Hit(w.resolver, token, w.now).Some?
    ensures Recent(ttl, w.reports, token, Hit(w.resolver, token, w.now).value, w.now)
  {
    assert Backed(ttl, w.reports, token, w.resolver.cache[token], w.now);
  }

  lemma MoreReports(ttl: real, reports: seq<Report>, r: Report, task: Task)
    requires task.Returned? && Justified(ttl, reports, task)
    ensures Justified(ttl, reports + [r], task)
  {
    match task.source
    case FromCache =>
      var x :| x in reports && x.token == task.token && x.identity == task.identity &&
        x.asked <= task.at < x.asked + TtlOf(ttl, task.identity);
      assert x in reports + [r];
    case FromHa =>
      var x :| x in reports && x.token == task.token && x.identity == task.identity;
      assert x in reports + [r];
    case _ =>
  }

  lemma EntryStaysBacked(ttl: real, reports: seq<Report>, more: seq<Report>,
                         token: Token, entry: Entry, now: real, later: real)
    requires Backed(ttl, reports, token, entry, now) && now <= later
    ensures Backed(ttl, reports + more, token, entry, later)
  {
    var r :| r in reports && r.token == token && r.identity == entry.identity &&
      entry.expiry == r.asked + TtlOf(ttl, r.identity) && r.asked <= now;
    assert r in reports + more;
  }

  lemma AnswerIsTruthful(ttl: real, w: World, t: TaskId, identity: Option<Identity>)
    requires Truthful(ttl, w) && t in w.tasks && w.tasks[t].Asking?
    ensures Truthful(ttl, OnAnswer(ttl, w, t, w.tasks[t], identity))
  {
    var task := w.tasks[t];
    var w' := OnAnswer(ttl, w, t, task, identity);
    var r := Report(task.token, task.asked, identity);
    assert r in w'.reports;
    forall k | k in w'.resolver.cache
      ensures Backed(ttl, w'.reports, k, w'.resolver.cache[k], w'.now)
    {
      if k != task.token { EntryStaysBacked(ttl, w.reports, [r], k, w.resolver.cache[k], w.now, w.now); }
    }
    forall u | u in w'.tasks && w'.tasks[u].Returned?
      ensures Justified(ttl, w'.reports, w'.tasks[u])
    {
      if u != t { MoreReports(ttl, w.reports, r, w.tasks[u]); }
    }
  }

  lemma TickIsTruthful(ttl: real, w: World, elapsed: real)
    requires Truthful(ttl, w) && elapsed >= 0.0
    ensures Truthful(ttl, w.(now := w.now + elapsed))
  {
    forall k | k in w.resolver.cache
      ensures Backed(ttl, w.reports, k, w.resolver.cache[k], w.now + elapsed)
    {
      EntryStaysBacked(ttl, w.reports, [], k, w.resolver.cache[k], w.now, w.now + elapsed);
      assert w.reports + [] == w.reports;
    }
  }

  /** Moving one task on, the cache and the reports staying as they are. */
  lemma MoveIsTruthful(ttl: real, w: World, t: TaskId, task: Task, resolver: Resolver)
    requires Truthful(ttl, w) && resolver.cache == w.resolver.cache
    requires task.Asking? ==> task.asked <= w.now
    requires task.Returned? ==> Justified(ttl, w.reports, task)
    ensures Truthful(ttl, Goto(w.(resolver := resolver), t, task))
  {}

  lemma CallIsTruthful(ttl: real, w: World, t: TaskId, token: Token)
    requires Truthful(ttl, w)
    ensures Truthful(ttl, OnCall(w, t, token))
  {
    var w' := OnCall(w, t, token);
    if token != "" && Hit(w.resolver, token, w.now).Some? { HitIsRecent(ttl, w, token); }
    MoveIsTruthful(ttl, w, t, w'.tasks[t], w'.resolver);
  }

  lemma AcquireIsTruthful(ttl: real, w: World, t: TaskId, token: Token, lock: LockId)
    requires Truthful(ttl, w)
    ensures Truthful(ttl, OnAcquire(w, t, token, lock))
  {
    var w' := OnAcquire(w, t, token, lock);
    if Hit(w.resolver, token, w.now).Some? { HitIsRecent(ttl, w, token); }
    MoveIsTruthful(ttl, w, t, w'.tasks[t], w'.resolver);
  }

  lemma TruthfulStep(ttl: real, w: World, a: Action)
    requires Truthful(ttl, w)
    ensures Truthful(ttl, Next(ttl, w, a))
  {
    var w' := Next(ttl, w, a);
    match a
    case Tick(elapsed) => if elapsed >= 0.0 { TickIsTruthful(ttl, w, elapsed); }
    case Call(t, token) => if t !in w.tasks { CallIsTruthful(ttl, w, t, token); }
    case Acquire(t) => if w' != w { AcquireIsTruthful(ttl, w, t, w.tasks[t].token, w.tasks[t].lock); }
    case HaAnswers(t, identity) =>
      if t in w.tasks && w.tasks[t].Asking? { AnswerIsTruthful(ttl, w, t, identity); }
    case HaFails(t) => if w' != w { MoveIsTruthful(ttl, w, t, w'.tasks[t], w'.resolver); }
    case Cancel(t) => if w' != w { MoveIsTruthful(ttl, w, t, w'.tasks[t], w'.resolver); }
  }

  /** Over every interleaving: an answer served from the cache, also a rejection, is what HA
      reported for that very token in reply to a question put less than its time to live
      before the clock was read; an answer not served from the cache is HA's own; an empty
      token and a failure give nobody. The cache never holds more than its bound. */
  lemma {:induction false} CacheServesReports(ttl: real, now: real, actions: seq<Action>)
    ensures Truthful(ttl, After(ttl, now, actions))
  {
    if actions == [] {
    } else {
      CacheServesReports(ttl, now, actions[..|actions| - 1]);
      TruthfulStep(ttl, After(ttl, now, actions[..|actions| - 1]), actions[|actions| - 1]);
    }
  }

  /** If HA says the same about a token throughout, every call that did not fail returns
      just that: the cache cannot be told apart from asking HA each time. */
  lemma CachingIsTransparent(ttl: real, now: real, actions: seq<Action>, truth: map<Token, Option<Identity>>, t: TaskId)
    requires var w := After(ttl, now, actions);
      && t in w.tasks && w.tasks[t].Returned?
      && forall r :: r in w.reports ==> r.token in truth && truth[r.token] == r.identity
    ensures var task := After(ttl, now, actions).tasks[t];
      (task.source.FromCache? || task.source.FromHa? ==> task.token in truth && task.identity == truth[task.token]) &&
      (task.source.NoToken? || task.source.Failure? ==> task.identity.None?)
  {
    CacheServesReports(ttl, now, actions);
    assert Justified(ttl, After(ttl, now, actions).reports, After(ttl, now, actions).tasks[t]);
  }

  /** Only an answer from HA changes the cache: neither a failed nor a cancelled question
      leaves a trace in it, and both free the lock for the next call. */
  lemma OnlyAnswersChangeCache(ttl: real, w: World, a: Action)
    ensures !a.HaAnswers? ==> Next(ttl, w, a).resolver.cache == w.resolver.cache && Next(ttl, w, a).reports == w.reports
    ensures (a.HaFails? || a.Cancel?) && a.task in w.tasks && w.tasks[a.task].Asking? ==>
      Next(ttl, w, a).resolver.held == w.resolver.held - {w.tasks[a.task].lock}
  {}

  // ---- what the cache is for ----

  /** How long an identity, and how long a rejection, is kept. */
  function Kept(ttl: real, identity: Option<Identity>): real {
    match identity
    case Some(_) => ttl
    case None => 30.0
  }

  /** HA's answer is kept under its token, from just before the question on; or the cache,
      grown over ten thousand entries by it, is emptied. Nothing else in it changes. */
  lemma AnswersAreKept(ttl: real, w: World, t: TaskId, identity: Option<Identity>)
    requires t in w.tasks && w.tasks[t].Asking?
    ensures var task := w.tasks[t];
      var grown := w.resolver.cache[task.token := Entry(task.asked + Kept(ttl, identity), identity)];
      Next(ttl, w, HaAnswers(t, identity)).resolver.cache == if |grown| > 10_000 then map[] else grown
  {}

  /** A call that finds an entry still good returns it at once: it takes no lock, waits for
      nobody and asks nothing. */
  lemma GoodEntryIsServed(ttl: real, w: World, t: TaskId, token: Token)
    requires token != "" && t !in w.tasks
    requires token in w.resolver.cache && w.now < w.resolver.cache[token].expiry
    ensures Next(ttl, w, Call(t, token)) ==
      w.(tasks := w.tasks[t := Returned(token, w.resolver.cache[token].identity, FromCache, w.now)])
  {}

  /** So does a call that waited for the lock while another asked. */
  lemma WaiterIsServed(ttl: real, w: World, t: TaskId)
    requires t in w.tasks && w.tasks[t].Waiting? && w.tasks[t].lock !in w.resolver.held
    requires w.tasks[t].token in w.resolver.cache && w.now < w.resolver.cache[w.tasks[t].token].expiry
    ensures var token := w.tasks[t].token;
      Next(ttl, w, Acquire(t)) ==
        w.(tasks := w.tasks[t := Returned(token, w.resolver.cache[token].identity, FromCache, w.now)])
  {}

  /** A call without a good entry asks HA, once it has the token's lock. */
  lemma MissAsks(ttl: real, w: World, t: TaskId)
    requires t in w.tasks && w.tasks[t].Waiting? && w.tasks[t].lock !in w.resolver.held
    requires w.tasks[t].token !in w.resolver.cache || w.now >= w.resolver.cache[w.tasks[t].token].expiry
    ensures Next(ttl, w, Acquire(t)).tasks[t] == Asking(w.tasks[t].token, w.tasks[t].lock, w.now)
  {}

  /** End to end: for as long as an answer is kept, counted from just before its question, a
      new call for the token is given that answer without asking again. */
  lemma AnswerServesNextCall(ttl: real, w: World, t: TaskId, identity: Option<Identity>, elapsed: real, u: TaskId)
    requires t in w.tasks && w.tasks[t].Asking? && w.tasks[t].token != "" && u !in w.tasks && elapsed >= 0.0
    requires |w.resolver.cache| < 10_000 && w.now + elapsed < w.tasks[t].asked + Kept(ttl, identity)
    ensures var later := Next(ttl, Next(ttl, w, HaAnswers(t, identity)), Tick(elapsed));
      Next(ttl, later, Call(u, w.tasks[t].token)).tasks[u] ==
        Returned(w.tasks[t].token, identity, FromCache, w.now + elapsed)
  {
    var token := w.tasks[t].token;
    AnswersAreKept(ttl, w, t, identity);
    Grown(w.resolver.cache, token, Entry(w.tasks[t].asked + Kept(ttl, identity), identity));
    var later := Next(ttl, Next(ttl, w, HaAnswers(t, identity)), Tick(elapsed));
    GoodEntryIsServed(ttl, later, u, token);
  }

  lemma Grown(cache: map<Token, Entry>, token: Token, entry: Entry)
    ensures |cache[token := entry]| <= |cache| + 1
  {
    assert cache[token := entry].Keys == cache.Keys + {token};
  }
}
