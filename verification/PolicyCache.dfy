/** The policy enforcer's verdict cache against rule reload
    (`internal/policy/cel.go`), as interleaved steps of any number of `Protect`
    requests and `ReloadPolicies` calls over one RWMutex and one sync.Map. */
module PolicyCache {
  import opened Text
  import opened Wrappers

  const TTL: int := 30

  // ---------------------------------------------------------------- the data

  datatype Request = Request(verb: string, ns: string, repo: string, reference: string)

  /** What a rule sees: the request and the facts looked up for it. */
  datatype Vars = Vars(req: Request, signed: bool, issuer: string, critical: nat, high: nat)

  /** A compiled rule; false is the only verdict that denies. */
  type Rule = Vars -> bool

  /** A cached verdict. `vars`, `gen` and `stamped` are history: the facts it
      was computed from, the rule set it was computed with, and when. */
  datatype Entry = Entry(allowed: bool, expiry: int, vars: Vars, gen: nat, stamped: int)

  function Key(r: Request): string {
    r.verb + ":" + r.ns + "/" + r.repo + ":" + r.reference
  }

  /** History of an answer: no rules at all, an entry found in the cache, rules
      evaluated under the read lock, or an evaluation that failed. */
  datatype How = Fast(gen: nat) | Cached(entry: Entry, at: int) | Fresh(vars: Vars, gen: nat) | Errored

  /** The generation of a thread is that of the rules it read or installed; the
      verdict of an answer is None for an internal error. */
  datatype Thread =
    // Protect
    | Begin(req: Request)
    | Lookup(req: Request)
    | Hit(req: Request, entry: Entry)
    | Expired(req: Request)
    | Gather(req: Request)
    | Ready(vars: Vars)
    | Evaluating(vars: Vars, gen: nat, i: nat)
    | Decided(vars: Vars, gen: nat, allowed: bool)
    | Stamped(vars: Vars, gen: nat, entry: Entry)
    | Stored(vars: Vars, gen: nat, allowed: bool)
    | Answered(req: Request, verdict: Option<bool>, how: How)
    // ReloadPolicies
    | Loading
    | Loaded(rules: seq<Rule>)
    | Locked(rules: seq<Rule>)
    | Swapped(gen: nat)
    | Unlocked(gen: nat)
    | Clearing(gen: nat, todo: set<string>)
    | Reloaded(gen: nat)
    | NotReloaded

  /** `past` is every rule set installed so far, the current one last; the
      generation of a rule set is its place in `past`. `asked` is the request each
      thread came with, `listed` the rules a reload found in the database, `served`
      what was answered from the cache. */
  datatype State = State(
    now: int,
    past: seq<seq<Rule>>,
    readers: set<nat>,
    writer: Option<nat>,
    cache: map<string, Entry>,
    threads: map<nat, Thread>,
    asked: map<nat, Request>,
    listed: map<nat, seq<Rule>>,
    served: set<(Request, Entry, int)>)
  {
    function Rules(): seq<Rule>
      requires past != []
    {
      past[|past| - 1]
    }

    function With(t: nat, th: Thread): State {
      this.(threads := threads[t := th])
    }
  }

  ghost predicate Verdict(rules: seq<Rule>, v: Vars) {
    forall r | r in rules :: r(v)
  }

  // --------------------------------------------------------------- the steps

  datatype RequestStep =
    | CheckRules
    | Load
    | CheckExpiry
    | DropExpired
    | GatherFacts(vars: Vars)
    | RLock
    | EvalRule
    | EvalError
    | Stamp
    | Store
    | RUnlock

  datatype ReloadStep =
    | ListPolicies(rules: seq<Rule>)
    | ListFails
    | Lock
    | Swap
    | Unlock
    | BeginClear(todo: set<string>)
    | ClearKey(key: string)
    | EndClear

  datatype Step =
    | Tick(to: int)
    | NewRequest(t: nat, req: Request)
    | NewReload(t: nat)
    | InRequest(t: nat, act: RequestStep)
    | InReload(t: nat, op: ReloadStep)

  ghost predicate Next(s: State, s': State, step: Step)
    requires s.past != []
  {
    match step
    case Tick(to) => s.now <= to && s' == s.(now := to)
    case NewRequest(t, req) => t !in s.threads && s' == s.With(t, Begin(req)).(asked := s.asked[t := req])
    case NewReload(t) => t !in s.threads && s' == s.With(t, Loading)
    case InRequest(t, act) => t in s.threads && RequestNext(s, s', t, s.threads[t], act)
    case InReload(t, op) => t in s.threads && ReloadNext(s, s', t, s.threads[t], op)
  }

  ghost predicate RequestNext(s: State, s': State, t: nat, th: Thread, act: RequestStep)
    requires s.past != []
  {
    match act
    // Protect: the fast path, then the cache
    case CheckRules =>
      && th.Begin? && s.writer == None
      && s' == s.With(t, if s.Rules() == [] then Answered(th.req, Some(true), Fast(|s.past| - 1)) else Lookup(th.req))
    case Load =>
      && th.Lookup?
      && s' == s.With(t, if Key(th.req) in s.cache then Hit(th.req, s.cache[Key(th.req)]) else Gather(th.req))
    case CheckExpiry =>
      && th.Hit?
      && s' == if s.now < th.entry.expiry
               then s.With(t, Answered(th.req, Some(th.entry.allowed), Cached(th.entry, s.now))).(
                      served := s.served + {(th.req, th.entry, s.now)})
               else s.With(t, Expired(th.req))
    case DropExpired =>
      th.Expired? && s' == s.With(t, Gather(th.req)).(cache := s.cache - {Key(th.req)})
    case GatherFacts(vars) =>
      th.Gather? && vars.req == th.req && s' == s.With(t, Ready(vars))
    // Protect: evaluation and store, all under the read lock
    case RLock =>
      th.Ready? && s.writer == None && s' == s.With(t, Evaluating(th.vars, |s.past| - 1, 0)).(readers := s.readers + {t})
    case EvalRule =>
      && th.Evaluating?
      && s' == s.With(t, if th.i >= |s.Rules()| then Decided(th.vars, th.gen, true)
                         else if s.Rules()[th.i](th.vars) then Evaluating(th.vars, th.gen, th.i + 1)
                         else Decided(th.vars, th.gen, false))
    case EvalError =>
      th.Evaluating? && s' == s.With(t, Answered(th.vars.req, None, Errored)).(readers := s.readers - {t})
    case Stamp =>
      && th.Decided?
      && s' == s.With(t, Stamped(th.vars, th.gen, Entry(th.allowed, s.now + TTL, th.vars, |s.past| - 1, s.now)))
    case Store =>
      th.Stamped? && s' == s.With(t, Stored(th.vars, th.gen, th.entry.allowed)).(cache := s.cache[Key(th.vars.req) := th.entry])
    case RUnlock =>
      th.Stored? && s' == s.With(t, Answered(th.vars.req, Some(th.allowed), Fresh(th.vars, th.gen))).(readers := s.readers - {t})
  }

  /** `ReloadPolicies`: swap under the write lock, clear afterwards. */
  ghost predicate ReloadNext(s: State, s': State, t: nat, th: Thread, op: ReloadStep) {
    match op
    case ListPolicies(rules) => th.Loading? && s' == s.With(t, Loaded(rules)).(listed := s.listed[t := rules])
    case ListFails => th.Loading? && s' == s.With(t, NotReloaded)
    case Lock =>
      th.Loaded? && s.writer == None && s.readers == {} && s' == s.With(t, Locked(th.rules)).(writer := Some(t))
    case Swap => th.Locked? && s' == s.With(t, Swapped(|s.past|)).(past := s.past + [th.rules])
    case Unlock => th.Swapped? && s' == s.With(t, Unlocked(th.gen)).(writer := None)
    // sync.Map.Range visits at least every key present when it starts
    case BeginClear(todo) => th.Unlocked? && s.cache.Keys <= todo && s' == s.With(t, Clearing(th.gen, todo))
    case ClearKey(key) =>
      && th.Clearing? && key in th.todo
      && s' == s.With(t, Clearing(th.gen, th.todo - {key})).(cache := s.cache - {key})
    case EndClear => th.Clearing? && th.todo == {} && s' == s.With(t, Reloaded(th.gen))
  }

  ghost predicate Initial(s: State) {
    && |s.past| == 1 && s.readers == {} && s.writer == None
    && s.cache == map[] && s.threads == map[] && s.asked == map[] && s.listed == map[] && s.served == {}
  }

  ghost predicate IsRun(run: seq<State>) {
    && run != []
    && if |run| == 1 then Initial(run[0])
       else
         IsRun(run[..|run| - 1]) && Moves(run[|run| - 2], run[|run| - 1])
  }

  ghost predicate Moves(s: State, s': State) {
    s.past != [] && exists step :: Next(s, s', step)
  }

  // --------------------------------------------------------------- invariant

  predicate Reads(th: Thread) {
    th.Evaluating? || th.Decided? || th.Stamped? || th.Stored?
  }

  predicate Writes(th: Thread) {
    th.Locked? || th.Swapped?
  }

  /** The reload has installed its rules and not yet finished clearing. */
  predicate Pending(th: Thread) {
    th.Swapped? || th.Unlocked? || th.Clearing?
  }

  ghost predicate LockInv(s: State) {
    && s.past != []
    && (forall t | t in s.threads && Reads(s.threads[t]) :: t in s.readers && s.writer == None)
    && (forall t | t in s.threads && Writes(s.threads[t]) :: s.writer == Some(t))
    && (s.writer.Some? ==> s.readers == {})
    && (forall t | t in s.readers :: t in s.threads && Reads(s.threads[t]))
  }

  /** What an entry's history says about it. */
  ghost predicate Honest(s: State, e: Entry) {
    && e.gen < |s.past| && e.expiry == e.stamped + TTL && e.stamped <= s.now
    && (e.allowed <==> Verdict(s.past[e.gen], e.vars))
  }

  /** What the answer given says, in each way of coming to one. */
  ghost predicate AnswerOk(s: State, req: Request, verdict: Option<bool>, how: How) {
    match how
    case Fast(gen) => verdict == Some(true) && gen < |s.past| && s.past[gen] == []
    case Cached(e, at) => verdict == Some(e.allowed) && (req, e, at) in s.served
    case Fresh(vars, gen) =>
      vars.req == req && gen < |s.past| && verdict.Some? && (verdict.value <==> Verdict(s.past[gen], vars))
    case Errored => verdict == None
  }

  /** Work under the read lock is about the rules installed now. */
  ghost predicate ThreadInv(s: State, th: Thread)
    requires s.past != []
  {
    && (Reads(th) ==> th.gen == |s.past| - 1)
    && match th
       case Evaluating(vars, _, i) => i <= |s.Rules()| && Verdict(s.Rules()[..i], vars)
       case Decided(vars, _, allowed) => allowed <==> Verdict(s.Rules(), vars)
       case Stamped(vars, gen, e) =>
         Honest(s, e) && e.vars == vars && e.gen == gen && (e.allowed <==> Verdict(s.Rules(), vars))
       case Stored(vars, _, allowed) => allowed <==> Verdict(s.Rules(), vars)
       case Hit(req, e) => Honest(s, e) && Key(e.vars.req) == Key(req)
       case Answered(req, verdict, how) => AnswerOk(s, req, verdict, how)
       case _ => true
  }

  /** The request a thread is about. */
  function RequestOf(th: Thread): Option<Request> {
    match th
    case Begin(req) => Some(req)
    case Lookup(req) => Some(req)
    case Hit(req, _) => Some(req)
    case Expired(req) => Some(req)
    case Gather(req) => Some(req)
    case Ready(vars) => Some(vars.req)
    case Evaluating(vars, _, _) => Some(vars.req)
    case Decided(vars, _, _) => Some(vars.req)
    case Stamped(vars, _, _) => Some(vars.req)
    case Stored(vars, _, _) => Some(vars.req)
    case Answered(req, _, _) => Some(req)
    case _ => None
  }

  /** Every request is still the one that was asked. */
  predicate AskedInv(s: State) {
    forall t | t in s.threads && RequestOf(s.threads[t]).Some? ::
      t in s.asked && s.asked[t] == RequestOf(s.threads[t]).value
  }

  ghost predicate CacheInv(s: State) {
    forall k | k in s.cache :: Honest(s, s.cache[k]) && Key(s.cache[k].vars.req) == k
  }

  /** A reload that has installed its rules. */
  predicate Installed(th: Thread) {
    Pending(th) || th.Reloaded?
  }

  /** A reload that is clearing has every older verdict still to delete; once it
      has returned there is none. */
  ghost predicate ReloadOk(s: State, th: Thread) {
    && (Installed(th) ==> th.gen < |s.past|)
    && (th.Clearing? ==> forall k | k in s.cache && s.cache[k].gen < th.gen :: k in th.todo)
    && (th.Reloaded? ==> forall k | k in s.cache :: th.gen <= s.cache[k].gen)
  }

  /** A reload installs the rules it listed. */
  ghost predicate ListedOk(s: State, t: nat, th: Thread) {
    && (th.Loaded? || th.Locked? ==> t in s.listed && s.listed[t] == th.rules)
    && (Installed(th) ==> t in s.listed && th.gen < |s.past| && s.past[th.gen] == s.listed[t])
  }

  ghost predicate ListedInv(s: State) {
    forall t | t in s.threads :: ListedOk(s, t, s.threads[t])
  }

  /** Some reload installed the rules in force, unless they are the first. */
  ghost predicate Installer(s: State) {
    |s.past| > 1 ==> exists t :: t in s.threads && Installed(s.threads[t]) && s.threads[t].gen == |s.past| - 1
  }

  ghost predicate ReloadInv(s: State) {
    Installer(s) && forall t | t in s.threads :: ReloadOk(s, s.threads[t])
  }

  ghost predicate ServedInv(s: State) {
    forall x | x in s.served ::
      Honest(s, x.1) && Key(x.1.vars.req) == Key(x.0) && x.2 < x.1.expiry
  }

  ghost predicate Inv(s: State) {
    && LockInv(s)
    && (forall t | t in s.threads :: ThreadInv(s, s.threads[t]))
    && CacheInv(s) && ReloadInv(s) && ServedInv(s) && AskedInv(s) && ListedInv(s)
  }

  lemma {:induction false} VerdictSnoc(rules: seq<Rule>, r: Rule, v: Vars)
    ensures Verdict(rules + [r], v) <==> Verdict(rules, v) && r(v)
  {
    assert r in rules + [r];
    assert forall x | x in rules :: x in rules + [r];
  }

  /** Thread `t` alone moves, in no time. */
  ghost predicate Moved(s: State, s': State, t: nat) {
    && t in s'.threads && s'.threads == s.threads[t := s'.threads[t]] && s'.now == s.now
    && s.served <= s'.served
  }

  // what requests do

  /** A request holds the read lock exactly while it evaluates and stores. */
  ghost predicate ReadersFollow(s: State, s': State, t: nat) {
    && t in s'.threads && s'.writer == s.writer && !Writes(s'.threads[t])
    && s'.readers == (if Reads(s'.threads[t]) then s.readers + {t} else s.readers - {t})
    && (Reads(s'.threads[t]) ==> s.writer == None)
  }

  lemma {:induction false} RequestMoves(s: State, s': State, t: nat, act: RequestStep)
    requires s.past != [] && t in s.threads && RequestNext(s, s', t, s.threads[t], act)
    ensures Moved(s, s', t) && s'.past == s.past
  {
  }

  lemma {:induction false} LookupReads(s: State, s': State, t: nat, act: RequestStep)
    requires LockInv(s) && t in s.threads && RequestNext(s, s', t, s.threads[t], act) && (BeforeLock(act) || act.RLock?)
    ensures ReadersFollow(s, s', t)
  {
    assert t !in s.readers;
  }

  lemma {:induction false} EvaluatingReads(s: State, s': State, t: nat, act: RequestStep)
    requires LockInv(s) && t in s.threads && RequestNext(s, s', t, s.threads[t], act) && !BeforeLock(act) && !act.RLock?
    ensures ReadersFollow(s, s', t)
  {
    assert t in s.readers && s.writer == None;
  }

  lemma {:induction false} RequestReads(s: State, s': State, t: nat, act: RequestStep)
    requires LockInv(s) && t in s.threads && RequestNext(s, s', t, s.threads[t], act)
    ensures ReadersFollow(s, s', t)
  {
    if BeforeLock(act) || act.RLock? {
      LookupReads(s, s', t, act);
    } else {
      EvaluatingReads(s, s', t, act);
    }
  }

  lemma {:induction false} RequestLocks(s: State, s': State, t: nat)
    requires LockInv(s) && Moved(s, s', t) && s'.past == s.past && ReadersFollow(s, s', t)
    ensures LockInv(s')
  {
  }

  lemma {:induction false} EvalKeeps(s: State, s': State, t: nat)
    requires s.past != [] && t in s.threads && RequestNext(s, s', t, s.threads[t], EvalRule)
    requires ThreadInv(s, s.threads[t])
    ensures t in s'.threads && ThreadInv(s', s'.threads[t])
  {
    var th := s.threads[t];
    var rules := s.Rules();
    if th.i < |rules| {
      assert rules[..th.i + 1] == rules[..th.i] + [rules[th.i]];
      VerdictSnoc(rules[..th.i], rules[th.i], th.vars);
      assert rules[th.i] in rules;
    } else {
      assert rules[..th.i] == rules;
    }
  }

  predicate BeforeLock(act: RequestStep) {
    act.CheckRules? || act.Load? || act.CheckExpiry? || act.DropExpired? || act.GatherFacts?
  }

  lemma {:induction false} ServedThread(s: State, s': State, t: nat)
    requires s.past != [] && t in s.threads && RequestNext(s, s', t, s.threads[t], CheckExpiry)
    requires ThreadInv(s, s.threads[t])
    ensures t in s'.threads && s'.past == s.past && ThreadInv(s', s'.threads[t])
  {
  }

  lemma {:induction false} LookupThread(s: State, s': State, t: nat, act: RequestStep)
    requires s.past != [] && t in s.threads && RequestNext(s, s', t, s.threads[t], act)
    requires BeforeLock(act) && !act.CheckExpiry?
    requires ThreadInv(s, s.threads[t]) && CacheInv(s)
    ensures t in s'.threads && s'.past == s.past && ThreadInv(s', s'.threads[t])
  {
  }

  lemma {:induction false} EvaluatingThread(s: State, s': State, t: nat, act: RequestStep)
    requires s.past != [] && t in s.threads && RequestNext(s, s', t, s.threads[t], act) && !BeforeLock(act)
    requires ThreadInv(s, s.threads[t])
    ensures t in s'.threads && s'.past == s.past && ThreadInv(s', s'.threads[t])
  {
    if act.EvalRule? {
      EvalKeeps(s, s', t);
    }
  }

  lemma {:induction false} RequestThread(s: State, s': State, t: nat, act: RequestStep)
    requires s.past != [] && t in s.threads && RequestNext(s, s', t, s.threads[t], act)
    requires ThreadInv(s, s.threads[t]) && CacheInv(s)
    ensures t in s'.threads && s'.past == s.past && ThreadInv(s', s'.threads[t])
  {
    if act.CheckExpiry? {
      ServedThread(s, s', t);
    } else if BeforeLock(act) {
      LookupThread(s, s', t, act);
    } else {
      EvaluatingThread(s, s', t, act);
    }
  }

  /** Whatever is newly cached was computed with the rules in force. */
  ghost predicate NewIsCurrent(s: State, s': State) {
    && |s.past| <= |s'.past|
    && forall k | k in s'.cache :: (k in s.cache && s'.cache[k] == s.cache[k]) || s'.cache[k].gen == |s'.past| - 1
  }

  lemma {:induction false} StoreKeeps(s: State, s': State, t: nat)
    requires s.past != [] && t in s.threads && RequestNext(s, s', t, s.threads[t], Store)
    requires ThreadInv(s, s.threads[t]) && CacheInv(s) && ServedInv(s)
    ensures NewIsCurrent(s, s') && CacheInv(s') && ServedInv(s')
  {
  }

  lemma {:induction false} ServeKeeps(s: State, s': State, t: nat)
    requires s.past != [] && t in s.threads && RequestNext(s, s', t, s.threads[t], CheckExpiry)
    requires ThreadInv(s, s.threads[t]) && CacheInv(s) && ServedInv(s)
    ensures NewIsCurrent(s, s') && CacheInv(s') && ServedInv(s')
  {
    assert s'.cache == s.cache && s'.past == s.past && s'.now == s.now;
    var th := s.threads[t];
    assert Honest(s, th.entry);
    forall x | x in s'.served ensures Honest(s', x.1) && Key(x.1.vars.req) == Key(x.0) && x.2 < x.1.expiry {
      assert x in s.served || x == (th.req, th.entry, s.now);
    }
  }

  lemma {:induction false} NothingStored(s: State, s': State, t: nat, act: RequestStep)
    requires s.past != [] && t in s.threads && RequestNext(s, s', t, s.threads[t], act)
    requires !act.Store? && !act.CheckExpiry?
    ensures s'.served == s.served && s'.past == s.past && s'.now == s.now
    ensures forall k | k in s'.cache :: k in s.cache && s'.cache[k] == s.cache[k]
  {
  }

  lemma {:induction false} RequestCache(s: State, s': State, t: nat, act: RequestStep)
    requires s.past != [] && t in s.threads && RequestNext(s, s', t, s.threads[t], act)
    requires ThreadInv(s, s.threads[t]) && CacheInv(s) && ServedInv(s)
    ensures NewIsCurrent(s, s') && CacheInv(s') && ServedInv(s')
  {
    match act
    case Store => StoreKeeps(s, s', t);
    case CheckExpiry => ServeKeeps(s, s', t);
    case _ =>
      NothingStored(s, s', t, act);
      EntriesLast(s, s');
  }

  predicate IsRequest(th: Thread) {
    RequestOf(th).Some?
  }

  /** Requests never become reloads. */
  lemma {:induction false} RequestsStay(s: State, s': State, t: nat, act: RequestStep)
    requires s.past != [] && t in s.threads && RequestNext(s, s', t, s.threads[t], act)
    ensures t in s'.threads && IsRequest(s.threads[t]) && IsRequest(s'.threads[t])
  {
  }

  // what reloads do

  /** A reload holds the write lock exactly from Lock to Unlock. */
  ghost predicate WriterFollows(s: State, s': State, t: nat)
    requires t in s.threads
  {
    && t in s'.threads && s'.readers == s.readers && !Reads(s.threads[t]) && !Reads(s'.threads[t])
    && (Writes(s'.threads[t]) ==> s'.writer == Some(t) && s.readers == {} && (s.writer == None || s.writer == Some(t)))
    && (!Writes(s'.threads[t]) ==> s'.writer == if Writes(s.threads[t]) then None else s.writer)
  }

  lemma {:induction false} ReloadMoves(s: State, s': State, t: nat, op: ReloadStep)
    requires LockInv(s) && t in s.threads && ReloadNext(s, s', t, s.threads[t], op)
    ensures Moved(s, s', t) && s.past <= s'.past && WriterFollows(s, s', t)
    ensures s'.past != s.past ==> s.readers == {}
  {
    if Writes(s.threads[t]) {
      assert s.writer == Some(t);
    }
  }

  lemma {:induction false} ReloadLocks(s: State, s': State, t: nat)
    requires LockInv(s) && t in s.threads && Moved(s, s', t) && s.past <= s'.past && WriterFollows(s, s', t)
    ensures LockInv(s')
  {
  }

  lemma {:induction false} ReloadThread(s: State, s': State, t: nat, op: ReloadStep)
    requires s.past != [] && t in s.threads && ReloadNext(s, s', t, s.threads[t], op)
    ensures s'.past != [] && t in s'.threads && ThreadInv(s', s'.threads[t])
  {
  }

  lemma {:induction false} ReloadCache(s: State, s': State, t: nat, op: ReloadStep)
    requires t in s.threads && ReloadNext(s, s', t, s.threads[t], op)
    ensures NewIsCurrent(s, s') && s'.served == s.served
    ensures forall k | k in s'.cache :: k in s.cache && s'.cache[k] == s.cache[k]
  {
  }

  lemma {:induction false} ReloadMover(s: State, s': State, t: nat, op: ReloadStep)
    requires t in s.threads && ReloadNext(s, s', t, s.threads[t], op)
    requires ReloadOk(s, s.threads[t])
    ensures t in s'.threads && ReloadOk(s', s'.threads[t])
    ensures Installed(s.threads[t]) ==> Installed(s'.threads[t]) && s'.threads[t].gen == s.threads[t].gen
    ensures s'.past == s.past || s'.threads[t] == Swapped(|s'.past| - 1)
  {
  }

  // what the others keep

  lemma {:induction false} HonestLasts(s: State, s': State, e: Entry)
    requires Honest(s, e) && s.now <= s'.now && s.past <= s'.past
    ensures Honest(s', e)
  {
  }

  /** A thread that did not move keeps its invariant: rules change only while
      nobody reads. */
  lemma {:induction false} OthersKeep(s: State, s': State, th: Thread)
    requires s.past != [] && ThreadInv(s, th) && s.now <= s'.now && s.past <= s'.past
    requires s'.past == s.past || !Reads(th)
    requires s.served <= s'.served
    ensures ThreadInv(s', th)
  {
    match th
    case Hit(_, e) => HonestLasts(s, s', e);
    case Stamped(_, _, e) => HonestLasts(s, s', e);
    case _ =>
  }

  lemma {:induction false} EntriesLast(s: State, s': State)
    requires CacheInv(s) && ServedInv(s) && s.now <= s'.now && s.past <= s'.past
    requires s'.served == s.served && forall k | k in s'.cache :: k in s.cache && s'.cache[k] == s.cache[k]
    ensures CacheInv(s') && ServedInv(s')
  {
    forall k | k in s'.cache ensures Honest(s', s'.cache[k]) && Key(s'.cache[k].vars.req) == k {
      HonestLasts(s, s', s'.cache[k]);
    }
    forall x | x in s'.served
      ensures Honest(s', x.1) && Key(x.1.vars.req) == Key(x.0) && x.2 < x.1.expiry
    {
      HonestLasts(s, s', x.1);
    }
  }

  lemma {:induction false} IdleReload(s: State, s': State, th: Thread)
    requires ReloadOk(s, th) && NewIsCurrent(s, s')
    ensures ReloadOk(s', th)
  {
  }

  /** The installer of the rules in force stays one, or is the thread that moved. */
  lemma {:induction false} InstallerKept(s: State, s': State, t: nat)
    requires Installer(s) && Moved(s, s', t) && s'.past == s.past
    requires t in s.threads && Installed(s.threads[t]) ==>
      Installed(s'.threads[t]) && s'.threads[t].gen == s.threads[t].gen
    ensures Installer(s')
  {
    if |s.past| > 1 {
      var u :| u in s.threads && Installed(s.threads[u]) && s.threads[u].gen == |s.past| - 1;
      assert u in s'.threads && Installed(s'.threads[u]) && s'.threads[u].gen == |s'.past| - 1;
    }
  }

  /** The request of a thread stays the one asked. */
  lemma {:induction false} AskedKept(s: State, s': State, t: nat)
    requires AskedInv(s) && Moved(s, s', t) && s'.asked == s.asked
    requires var r := RequestOf(s'.threads[t]); r.Some? ==> t in s.threads && RequestOf(s.threads[t]) == r
    ensures AskedInv(s')
  {
  }

  lemma {:induction false} RequestSame(s: State, s': State, t: nat, act: RequestStep)
    requires s.past != [] && t in s.threads && RequestNext(s, s', t, s.threads[t], act)
    ensures t in s'.threads && RequestOf(s'.threads[t]) == RequestOf(s.threads[t])
  {
  }

  lemma {:induction false} RequestHistory(s: State, s': State, t: nat, act: RequestStep)
    requires s.past != [] && t in s.threads && RequestNext(s, s', t, s.threads[t], act)
    ensures s'.asked == s.asked && s'.listed == s.listed
  {
  }

  lemma {:induction false} ReloadSame(s: State, s': State, t: nat, op: ReloadStep)
    requires t in s.threads && ReloadNext(s, s', t, s.threads[t], op)
    ensures t in s'.threads && s'.asked == s.asked && RequestOf(s'.threads[t]) == None
  {
  }

  lemma {:induction false} ListedMoves(s: State, s': State, t: nat, op: ReloadStep)
    requires t in s.threads && ReloadNext(s, s', t, s.threads[t], op) && ListedOk(s, t, s.threads[t])
    ensures t in s'.threads && ListedOk(s', t, s'.threads[t]) && forall u | u in s.listed && u != t :: u in s'.listed && s'.listed[u] == s.listed[u]
  {
  }

  lemma {:induction false} ListedKept(s: State, s': State, t: nat)
    requires ListedInv(s) && Moved(s, s', t) && s.past <= s'.past && ListedOk(s', t, s'.threads[t])
    requires forall u | u in s.listed && u != t :: u in s'.listed && s'.listed[u] == s.listed[u]
    ensures ListedInv(s')
  {
    forall u | u in s'.threads ensures ListedOk(s', u, s'.threads[u]) {
      if u != t {
        assert ListedOk(s, u, s.threads[u]);
      }
    }
  }

  // every step

  lemma {:induction false} TickKeeps(s: State, s': State, to: int)
    requires Inv(s) && Next(s, s', Tick(to))
    ensures Inv(s')
  {
    EntriesLast(s, s');
    forall t | t in s'.threads
      ensures ThreadInv(s', s'.threads[t]) && ReloadOk(s', s'.threads[t]) && ListedOk(s', t, s'.threads[t])
    {
      assert ListedOk(s, t, s.threads[t]);
      OthersKeep(s, s', s.threads[t]);
      IdleReload(s, s', s.threads[t]);
    }
    if |s.past| > 1 {
      var u :| u in s.threads && Installed(s.threads[u]) && s.threads[u].gen == |s.past| - 1;
      assert u in s'.threads && Installed(s'.threads[u]);
    }
  }

  /** A new thread with its request. */
  ghost predicate Arrived(s: State, s': State, t: nat, th: Thread) {
    && t !in s.threads && (th.Begin? || th.Loading?)
    && s' == if th.Begin? then s.With(t, th).(asked := s.asked[t := th.req]) else s.With(t, th)
  }

  lemma {:induction false} ArrivalLocks(s: State, s': State, t: nat, th: Thread)
    requires LockInv(s) && AskedInv(s) && Arrived(s, s', t, th)
    ensures LockInv(s') && AskedInv(s') && Moved(s, s', t) && s'.listed == s.listed && ListedOk(s', t, th)
  {
  }

  lemma {:induction false} ArrivalKeeps(s: State, s': State, t: nat, th: Thread)
    requires Inv(s) && Arrived(s, s', t, th)
    ensures Inv(s')
  {
    ArrivalLocks(s, s', t, th);
    ListedKept(s, s', t);
    EntriesLast(s, s');
    RestKeeps(s, s', t);
    InstallerKept(s, s', t);
  }

  lemma {:induction false} NoReload(s: State, t: nat, th: Thread)
    requires IsRequest(th)
    ensures !Installed(th) && ListedOk(s, t, th) && ReloadOk(s, th)
  {
  }

  /** What a request leaves of the reloads. */
  lemma {:induction false} ReloadsRest(s: State, s': State, t: nat)
    requires ReloadInv(s) && ListedInv(s) && t in s.threads && Moved(s, s', t) && s'.past == s.past && s'.listed == s.listed
    requires NewIsCurrent(s, s') && IsRequest(s.threads[t]) && IsRequest(s'.threads[t])
    ensures ReloadInv(s') && ListedInv(s')
  {
    NoReload(s, t, s.threads[t]);
    NoReload(s', t, s'.threads[t]);
    InstallerKept(s, s', t);
    ListedKept(s, s', t);
    forall u | u in s'.threads && u != t ensures ReloadOk(s', s'.threads[u]) {
      IdleReload(s, s', s.threads[u]);
    }
  }

  lemma {:induction false} RequestKeeps(s: State, s': State, t: nat, act: RequestStep)
    requires Inv(s) && t in s.threads && RequestNext(s, s', t, s.threads[t], act)
    ensures Inv(s')
  {
    assert ThreadInv(s, s.threads[t]);
    RequestMoves(s, s', t, act);
    RequestReads(s, s', t, act);
    RequestThread(s, s', t, act);
    RequestCache(s, s', t, act);
    RequestsStay(s, s', t, act);
    RequestSame(s, s', t, act);
    RequestHistory(s, s', t, act);
    RequestResult(s, s', t);
  }

  lemma {:induction false} RequestResult(s: State, s': State, t: nat)
    requires Inv(s) && t in s.threads && Moved(s, s', t) && s'.past == s.past && ReadersFollow(s, s', t)
    requires ThreadInv(s', s'.threads[t]) && NewIsCurrent(s, s') && CacheInv(s') && ServedInv(s')
    requires IsRequest(s.threads[t]) && RequestOf(s'.threads[t]) == RequestOf(s.threads[t])
    requires s'.asked == s.asked && s'.listed == s.listed
    ensures Inv(s')
  {
    RequestLocks(s, s', t);
    RestKeeps(s, s', t);
    AskedKept(s, s', t);
    ReloadsRest(s, s', t);
  }

  lemma {:induction false} ReloadKeeps(s: State, s': State, t: nat, op: ReloadStep)
    requires Inv(s) && t in s.threads && ReloadNext(s, s', t, s.threads[t], op)
    ensures Inv(s')
  {
    assert ReloadOk(s, s.threads[t]);
    ReloadMoves(s, s', t, op);
    ReloadLocks(s, s', t);
    ReloadThread(s, s', t, op);
    ReloadCache(s, s', t, op);
    ReloadMover(s, s', t, op);
    EntriesLast(s, s');
    RestKeeps(s, s', t);
    ReloadSame(s, s', t, op);
    AskedKept(s, s', t);
    assert ListedOk(s, t, s.threads[t]);
    ListedMoves(s, s', t, op);
    ListedKept(s, s', t);
    if s'.past == s.past {
      InstallerKept(s, s', t);
    }
  }

  /** All threads but the one that moved. */
  lemma {:induction false} RestKeeps(s: State, s': State, t: nat)
    requires LockInv(s) && Moved(s, s', t) && s.past <= s'.past && NewIsCurrent(s, s')
    requires s'.past == s.past || s.readers == {}
    requires forall u | u in s.threads :: ThreadInv(s, s.threads[u]) && ReloadOk(s, s.threads[u])
    ensures forall u | u in s'.threads && u != t :: ThreadInv(s', s'.threads[u]) && ReloadOk(s', s'.threads[u])
  {
    forall u | u in s'.threads && u != t ensures ThreadInv(s', s'.threads[u]) && ReloadOk(s', s'.threads[u]) {
      OthersKeep(s, s', s.threads[u]);
      IdleReload(s, s', s.threads[u]);
    }
  }

  lemma {:induction false} StepKeeps(s: State, s': State, step: Step)
    requires Inv(s) && Next(s, s', step)
    ensures Inv(s')
  {
    match step
    case Tick(to) => TickKeeps(s, s', to);
    case NewRequest(t, req) => ArrivalKeeps(s, s', t, Begin(req));
    case NewReload(t) => ArrivalKeeps(s, s', t, Loading);
    case InRequest(t, act) => RequestKeeps(s, s', t, act);
    case InReload(t, op) => ReloadKeeps(s, s', t, op);
  }

  lemma {:induction false} RunKeeps(run: seq<State>)
    requires IsRun(run)
    ensures Inv(run[|run| - 1])
  {
    if |run| > 1 {
      var front := run[..|run| - 1];
      RunKeeps(front);
      var step :| Next(front[|front| - 1], run[|run| - 1], step);
      StepKeeps(front[|front| - 1], run[|run| - 1], step);
    }
  }

  // ---------------------------------------------------------------- theorems

  /** In every interleaving, in every state where no reload is between its swap
      and the end of its clearing, every cached verdict is what the rules
      installed now say about the facts it was computed from. */
  lemma {:induction false} QuietCacheIsCurrent(run: seq<State>, s: State, k: string)
    requires IsRun(run) && s == run[|run| - 1] && s.past != []
    requires k in s.cache && forall t | t in s.threads :: !Pending(s.threads[t])
    ensures s.cache[k].allowed <==> Verdict(s.Rules(), s.cache[k].vars)
    ensures Key(s.cache[k].vars.req) == k
  {
    RunKeeps(run);
    QuietState(s, k);
  }

  lemma {:induction false} QuietState(s: State, k: string)
    requires Inv(s) && k in s.cache && forall t | t in s.threads :: !Pending(s.threads[t])
    ensures s.cache[k].allowed <==> Verdict(s.Rules(), s.cache[k].vars)
    ensures Key(s.cache[k].vars.req) == k
  {
    if |s.past| > 1 {
      var t :| t in s.threads && Installed(s.threads[t]) && s.threads[t].gen == |s.past| - 1;
      assert ReloadOk(s, s.threads[t]);
    }
    assert Honest(s, s.cache[k]);
  }

  /** In every interleaving, with any number of other reloads still running, no
      cached verdict is older than the rules of a reload that has returned: it is
      what rules installed by that reload, or by a later one, say. */
  lemma {:induction false} NeverOlderThanReload(run: seq<State>, s: State, t: nat, k: string)
    requires IsRun(run) && s == run[|run| - 1] && t in s.threads && s.threads[t].Reloaded? && k in s.cache
    ensures s.threads[t].gen <= s.cache[k].gen < |s.past|
    ensures t in s.listed && s.past[s.threads[t].gen] == s.listed[t]
    ensures s.cache[k].allowed <==> Verdict(s.past[s.cache[k].gen], s.cache[k].vars)
  {
    RunKeeps(run);
    assert ReloadOk(s, s.threads[t]) && Honest(s, s.cache[k]) && ListedOk(s, t, s.threads[t]);
  }

  /** No ':' in the method, no '/' in the namespace, no ':' in the repository. */
  predicate Separable(r: Request) {
    ':' !in r.verb && '/' !in r.ns && ':' !in r.repo
  }

  lemma {:induction false} KeyInjective(a: Request, b: Request)
    requires Separable(a) && Separable(b) && Key(a) == Key(b)
    ensures a == b
  {
    var ta, tb := a.ns + "/" + a.repo + ":" + a.reference, b.ns + "/" + b.repo + ":" + b.reference;
    assert Key(a) == a.verb + [':'] + ta && Key(b) == b.verb + [':'] + tb;
    FirstSeparator(a.verb, ta, b.verb, tb, ':');
    assert ta == a.ns + ['/'] + (a.repo + ":" + a.reference) && tb == b.ns + ['/'] + (b.repo + ":" + b.reference);
    FirstSeparator(a.ns, a.repo + ":" + a.reference, b.ns, b.repo + ":" + b.reference, '/');
    FirstSeparator(a.repo, a.reference, b.repo, b.reference, ':');
  }

  /** Cutting at the first separator leaves at least what any cut leaves. */
  lemma {:induction false} FirstCut(p: string, sep: char, rest: string) returns (x: string, y: string, w: string)
    ensures p + [sep] + rest == x + [sep] + y && sep !in x && y == w + rest
  {
    if p == "" {
      x, y, w := "", rest, "";
    } else if p[0] == sep {
      x, y, w := "", p[1..] + [sep] + rest, p[1..] + [sep];
    } else {
      x, y, w := FirstCut(p[1..], sep, rest);
      assert p + [sep] + rest == [p[0]] + (p[1..] + [sep] + rest) == ([p[0]] + x) + [sep] + y;
      x := [p[0]] + x;
    }
  }

  /** Every request shares its key with a separable one: the key read from the
      left, each part up to its first separator. */
  lemma {:induction false} KeyCollides(a: Request) returns (b: Request)
    ensures Separable(b) && Key(b) == Key(a)
    ensures !Separable(a) ==> b != a
  {
    var last := a.repo + [':'] + a.reference;
    var tail := a.ns + ['/'] + last;
    var verb, y, w := FirstCut(a.verb, ':', tail);
    assert y == (w + a.ns) + ['/'] + last;
    var ns, y', w' := FirstCut(w + a.ns, '/', last);
    assert y' == (w' + a.repo) + [':'] + a.reference;
    var repo, reference, _ := FirstCut(w' + a.repo, ':', a.reference);
    b := Request(verb, ns, repo, reference);
    assert Key(a) == a.verb + [':'] + tail;
    assert Key(b) == verb + [':'] + (ns + ['/'] + (repo + [':'] + reference));
  }

  /** A request is told apart from every separable one exactly when it is
      separable itself. */
  lemma {:induction false} SeparableExact(a: Request)
    ensures Separable(a) <==> forall b | Separable(b) && Key(b) == Key(a) :: b == a
  {
    forall b | Separable(a) && Separable(b) && Key(b) == Key(a) ensures b == a {
      KeyInjective(a, b);
    }
    var b := KeyCollides(a);
  }

  /** In every interleaving, every answer is to the request that was asked, and is
      right: true without rules if an empty rule set was installed; the verdict of
      a cache entry served then; or what the rules evaluated say about facts of
      this very request. */
  lemma {:induction false} AnswersRight(run: seq<State>, s: State, t: nat)
    requires IsRun(run) && s == run[|run| - 1] && t in s.threads && s.threads[t].Answered?
    ensures t in s.asked && s.asked[t] == s.threads[t].req
    ensures AnswerOk(s, s.threads[t].req, s.threads[t].verdict, s.threads[t].how)
  {
    RunKeeps(run);
    assert ThreadInv(s, s.threads[t]) && RequestOf(s.threads[t]).Some?;
  }

  /** The rules a request evaluates are in force until it has stored its verdict. */
  lemma {:induction false} EvaluatesRulesInForce(run: seq<State>, s: State, t: nat)
    requires IsRun(run) && s == run[|run| - 1] && t in s.threads && Reads(s.threads[t])
    ensures s.past != [] && s.threads[t].gen == |s.past| - 1
  {
    RunKeeps(run);
    assert ThreadInv(s, s.threads[t]);
  }

  /** In every run an entry found in the cache answers the request exactly if it
      was stamped less than 30 seconds ago. */
  lemma {:induction false} ServedExactly(run: seq<State>, s: State, s': State, t: nat)
    requires IsRun(run) && s == run[|run| - 1] && s.past != [] && Next(s, s', InRequest(t, CheckExpiry))
    ensures s.threads[t].Hit? && t in s'.threads
    ensures s'.threads[t].Answered? <==> s.now - s.threads[t].entry.stamped < 30
  {
    RunKeeps(run);
    assert ThreadInv(s, s.threads[t]);
  }

  /** Rules are skipped exactly when there are none. */
  lemma {:induction false} FastExactly(s: State, s': State, t: nat)
    requires s.past != [] && Next(s, s', InRequest(t, CheckRules))
    ensures t in s'.threads && (s'.threads[t].Answered? <==> |s.past[|s.past| - 1]| == 0)
  {
  }

  /** In every interleaving, a verdict answered from the cache is answered less
      than 30 seconds after it was stamped, was right for some rule set that was
      installed, and belongs to a request with the same key: to the very same
      request, when both are separable. */
  lemma {:induction false} ServedVerdicts(run: seq<State>, req: Request, e: Entry, at: int)
    requires IsRun(run) && (req, e, at) in run[|run| - 1].served
    ensures var s := run[|run| - 1];
      && at - e.stamped < 30
      && e.gen < |s.past| && (e.allowed <==> Verdict(s.past[e.gen], e.vars))
      && Key(e.vars.req) == Key(req)
      && (Separable(req) && Separable(e.vars.req) ==> e.vars.req == req)
  {
    RunKeeps(run);
    var x := (req, e, at);
    assert x in run[|run| - 1].served;
    if Separable(req) && Separable(e.vars.req) {
      KeyInjective(req, e.vars.req);
    }
  }
}
