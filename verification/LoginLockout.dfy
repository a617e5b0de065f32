/** The login lockout of `tokenHandler` (`internal/auth/handler.go`): ten
    failures in fifteen minutes, counted first and recorded later, by any
    number of concurrent requests. */
module LoginLockout {
  import opened Text

  const WINDOW: int := 15 * 60
  const LIMIT: int := 10

  // -------------------------------------------------------------- the system

  datatype Attempt = Attempt(name: string, at: int)

  datatype Request =
    | Arrived(user: string, token: bool, at: int, since: int)
    | Admitted(user: string, token: bool)

  /** `at`, the time of arrival, is history. Clock, recorded failures in order of recording, requests in flight. */
  datatype State = State(now: int, failures: seq<Attempt>, inflight: map<nat, Request>)

  datatype Step =
    | Tick(to: int)
    | Arrive(id: nat, user: string, token: bool)
    | Check(id: nat)
    | Fail(id: nat)
    | Finish(id: nat)

  /** Failures of a name after an instant, as the SQL query counts them. */
  function Recent(failures: seq<Attempt>, name: string, since: int): nat {
    if failures == [] then 0
    else
      var last := failures[|failures| - 1];
      Recent(failures[..|failures| - 1], name, since) + if last.name == name && last.at > since then 1 else 0
  }

  /** Failures of a name in the fifteen minutes after `lo`. */
  function InWindow(failures: seq<Attempt>, name: string, lo: int): nat {
    if failures == [] then 0
    else
      var last := failures[|failures| - 1];
      InWindow(failures[..|failures| - 1], name, lo)
      + if last.name == name && lo < last.at <= lo + 15 * 60 then 1 else 0
  }

  /** An access token strips the Docker suffix before recording, a password
      does not; the check before it never does. */
  function RecordedName(r: Request): string {
    if r.token then TrimSuffix(r.user, "-oci") else r.user
  }

  predicate Next(s: State, s': State, step: Step) {
    match step
    case Tick(to) => s.now <= to && s' == s.(now := to)
    case Arrive(id, user, token) =>
      id !in s.inflight && s' == s.(inflight := s.inflight[id := Arrived(user, token, s.now, s.now - WINDOW)])
    case Check(id) =>
      id in s.inflight && s.inflight[id].Arrived? &&
      var r := s.inflight[id];
      s' == if Recent(s.failures, r.user, r.since) >= LIMIT
            then s.(inflight := s.inflight - {id})
            else s.(inflight := s.inflight[id := Admitted(r.user, r.token)])
    case Fail(id) =>
      id in s.inflight && s.inflight[id].Admitted? &&
      s' == s.(inflight := s.inflight - {id},
               failures := s.failures + [Attempt(RecordedName(s.inflight[id]), s.now)])
    case Finish(id) =>
      id in s.inflight && s.inflight[id].Admitted? && s' == s.(inflight := s.inflight - {id})
  }

  ghost predicate Moves(s: State, s': State) {
    exists step :: Next(s, s', step)
  }

  ghost predicate IsRun(run: seq<State>) {
    && run != []
    && if |run| == 1 then run[0].failures == [] && run[0].inflight == map[]
       else IsRun(run[..|run| - 1]) && Moves(run[|run| - 2], run[|run| - 1])
  }

  function Active(s: State, name: string): set<nat> {
    set id | id in s.inflight && s.inflight[id].user == name
  }

  function Past(s: State, name: string): set<nat> {
    set id | id in s.inflight && s.inflight[id].user == name && s.inflight[id].Admitted?
  }

  /** The one kind of request whose failures are recorded for a name it is not
      checked against. */
  predicate Evades(r: Request, name: string) {
    r.token && r.user == name + "-oci"
  }

  /** At most k requests for the name at once, and none that evades its check. */
  ghost predicate Bounded(s: State, name: string, k: nat) {
    |Active(s, name)| <= k && forall id | id in s.inflight :: !Evades(s.inflight[id], name)
  }

  // -------------------------------------------------------------- invariant

  /** The request counts the fifteen minutes before it arrived. */
  predicate Punctual(s: State, r: Request)
    requires r.Arrived?
  {
    r.at <= s.now && r.since == r.at - 15 * 60
  }

  ghost predicate Inv(s: State, name: string, k: nat) {
    && (forall f | f in s.failures :: f.at <= s.now)
    && (forall id | id in s.inflight && s.inflight[id].Arrived? :: Punctual(s, s.inflight[id]))
    && (forall lo: int :: WindowOk(s, name, k, lo))
  }

  /** A window holds at most 9+k; once it holds ten and is still open, the
      requests already past the check are all that can add to it. */
  ghost predicate WindowOk(s: State, name: string, k: nat, lo: int) {
    var n := InWindow(s.failures, name, lo);
    n <= 9 + k && (n >= LIMIT && s.now <= lo + 15 * 60 ==> n + |Past(s, name)| <= 9 + k)
  }

  lemma {:induction false} CountSnoc(failures: seq<Attempt>, f: Attempt, name: string, lo: int)
    ensures InWindow(failures + [f], name, lo) ==
      InWindow(failures, name, lo) + if f.name == name && lo < f.at <= lo + 15 * 60 then 1 else 0
  {
    assert (failures + [f])[..|failures|] == failures;
  }

  /** The query sees everything in a window that begins no earlier. */
  lemma {:induction false} RecentCovers(failures: seq<Attempt>, name: string, since: int, lo: int)
    requires since <= lo
    ensures Recent(failures, name, since) >= InWindow(failures, name, lo)
  {
    if failures != [] {
      RecentCovers(failures[..|failures| - 1], name, since, lo);
    }
  }

  lemma {:induction false} PastWithin(s: State, name: string)
    ensures |Past(s, name)| <= |Active(s, name)|
  {
    SubsetSize(Past(s, name), Active(s, name));
  }

  lemma {:induction false} SubsetSize(a: set<nat>, b: set<nat>)
    requires a <= b
    ensures |a| <= |b|
  {
    if a != {} {
      var x :| x in a;
      SubsetSize(a - {x}, b - {x});
    }
  }

  lemma {:induction false} CheckKeeps(s: State, s': State, id: nat, name: string, k: nat, lo: int)
    requires Inv(s, name, k) && Next(s, s', Check(id))
    ensures WindowOk(s', name, k, lo)
  {
    var r := s.inflight[id];
    assert WindowOk(s, name, k, lo);
    if s.now <= lo + 15 * 60 {
      RecentCovers(s.failures, r.user, r.since, lo);
    }
    if id in s'.inflight && r.user == name {
      assert Past(s', name) == Past(s, name) + {id};
    } else {
      assert Past(s', name) == Past(s, name);
    }
  }

  lemma {:induction false} RecordedElsewhere(r: Request, name: string)
    requires RecordedName(r) == name
    ensures r.user == name || Evades(r, name)
  {
    if r.token && HasSuffix(r.user, "-oci") {
      assert r.user == r.user[..|r.user| - 4] + "-oci";
    }
  }

  lemma {:induction false} FailKeeps(s: State, s': State, id: nat, name: string, k: nat, lo: int)
    requires Inv(s, name, k) && Bounded(s, name, k) && Next(s, s', Fail(id))
    ensures WindowOk(s', name, k, lo)
  {
    var r := s.inflight[id];
    assert WindowOk(s, name, k, lo);
    CountSnoc(s.failures, Attempt(RecordedName(r), s.now), name, lo);
    if RecordedName(r) == name {
      RecordedElsewhere(r, name);
    }
    PastWithin(s, name);
    if r.user == name {
      assert id in Past(s, name);
      assert Past(s', name) == Past(s, name) - {id};
    } else {
      assert Past(s', name) == Past(s, name);
    }
  }

  lemma {:induction false} StepKeeps(s: State, s': State, step: Step, name: string, k: nat)
    requires Inv(s, name, k) && Bounded(s, name, k) && Next(s, s', step)
    ensures Inv(s', name, k)
  {
    forall lo: int ensures WindowOk(s', name, k, lo) {
      assert WindowOk(s, name, k, lo);
      match step {
        case Check(id) => CheckKeeps(s, s', id, name, k, lo);
        case Fail(id) => FailKeeps(s, s', id, name, k, lo);
        case Tick(_) => assert Past(s', name) == Past(s, name);
        case Arrive(id, _, _) => assert Past(s', name) == Past(s, name);
        case Finish(id) =>
          assert Past(s', name) <= Past(s, name);
          SubsetSize(Past(s', name), Past(s, name));
      }
    }
  }

  ghost predicate EveryWindow(failures: seq<Attempt>, name: string, most: int) {
    forall lo: int :: InWindow(failures, name, lo) <= most
  }

  /** With at most k login requests for a name in flight and no access token
      sent as that name with "-oci" behind it, no fifteen-minute window ever holds
      more than 9+k failures. */
  lemma {:induction false} LockoutBound(run: seq<State>, name: string, k: nat)
    requires IsRun(run) && forall s | s in run :: Bounded(s, name, k)
    ensures Inv(run[|run| - 1], name, k)
    ensures EveryWindow(run[|run| - 1].failures, name, 9 + k)
  {
    var s' := run[|run| - 1];
    if |run| == 1 {
      assert Past(s', name) == {};
    } else {
      var front := run[..|run| - 1];
      assert forall s | s in front :: s in run;
      LockoutBound(front, name, k);
      var s := front[|front| - 1];
      var step :| Next(s, s', step);
      StepKeeps(s, s', step, name, k);
    }
    forall lo: int ensures InWindow(s'.failures, name, lo) <= 9 + k {
      assert WindowOk(s', name, k, lo);
    }
  }

  /** One request at a time: ten. */
  lemma {:induction false} SequentialBound(run: seq<State>, name: string)
    requires IsRun(run) && forall s | s in run :: Bounded(s, name, 1)
    ensures EveryWindow(run[|run| - 1].failures, name, 10)
  {
    LockoutBound(run, name, 1);
  }

  /** Only requests of the kinds a policy admits. */
  ghost predicate Uses(s: State, admits: (string, bool) -> bool) {
    forall id | id in s.inflight :: admits(s.inflight[id].user, s.inflight[id].token)
  }

  /** Nothing in flight, or one evading request. */
  ghost predicate Lone(s: State, name: string) {
    s.inflight == map[] || (s.inflight.Keys == {0} && Evades(s.inflight[0], name))
  }

  ghost predicate AllLone(run: seq<State>, name: string) {
    forall s | s in run :: Lone(s, name)
  }

  lemma {:induction false} LoneShape(s: State, name: string, admits: (string, bool) -> bool)
    requires Lone(s, name) && admits(name + "-oci", true)
    ensures |s.inflight| <= 1 && Active(s, name) == {} && Uses(s, admits)
  {
    assert |name| != |name + "-oci"|;
    if s.inflight != map[] {
      assert |s.inflight| == |s.inflight.Keys| == 1;
    }
  }

  /** Time zero, n failures recorded for the name, none for the name as sent. */
  ghost predicate Evaded(s: State, name: string, n: int) {
    && s.now == 0 && s.inflight == map[] && InWindow(s.failures, name, -1) == n
    && Recent(s.failures, name + "-oci", -WINDOW) == 0
  }

  /** The condition is needed: for every name, with nothing but one such request
      at a time any number of failures is recorded at one instant. */
  lemma {:induction false} SuffixEvades(name: string, admits: (string, bool) -> bool, n: nat) returns (run: seq<State>)
    requires admits(name + "-oci", true)
    ensures IsRun(run) && Evaded(run[|run| - 1], name, n)
    ensures forall s | s in run :: |s.inflight| <= 1 && Active(s, name) == {} && Uses(s, admits)
  {
    run := LoneRun(name, n);
    forall s | s in run ensures |s.inflight| <= 1 && Active(s, name) == {} && Uses(s, admits) {
      LoneShape(s, name, admits);
    }
  }

  lemma {:induction false} LoneRun(name: string, n: nat) returns (run: seq<State>)
    ensures IsRun(run) && Evaded(run[|run| - 1], name, n) && AllLone(run, name)
  {
    if n == 0 {
      run := [State(0, [], map[])];
    } else {
      var front := LoneRun(name, n - 1);
      run := EvadeAgain(front, name, n - 1);
    }
  }

  lemma {:induction false} EvadeAgain(front: seq<State>, name: string, n: nat) returns (run: seq<State>)
    requires IsRun(front) && Evaded(front[|front| - 1], name, n) && AllLone(front, name)
    ensures IsRun(run) && Evaded(run[|run| - 1], name, n + 1) && AllLone(run, name)
  {
    var s0 := front[|front| - 1];
    var s1, s2, s3 := EvadeOnce(s0, name);
    OneMore(s0, s3, name, n);
    run := AddStep(front, s1);
    run := AddStep(run, s2);
    run := AddStep(run, s3);
  }

  lemma {:induction false} OneMore(s0: State, s3: State, name: string, n: nat)
    requires Evaded(s0, name, n) && s3 == s0.(failures := s0.failures + [Attempt(name, 0)])
    ensures Evaded(s3, name, n + 1)
  {
    CountSnoc(s0.failures, Attempt(name, 0), name, -1);
    assert (s0.failures + [Attempt(name, 0)])[..|s0.failures|] == s0.failures;
    assert |name| != |name + "-oci"|;
  }

  lemma {:induction false} Stripped(name: string)
    ensures TrimSuffix(name + "-oci", "-oci") == name
  {
    var user := name + "-oci";
    assert user[..|name|] == name && user[|name|..] == "-oci";
  }

  lemma {:induction false} EvadeOnce(s0: State, name: string) returns (s1: State, s2: State, s3: State)
    requires s0.now == 0 && s0.inflight == map[] && Recent(s0.failures, name + "-oci", -WINDOW) == 0
    ensures Moves(s0, s1) && Moves(s1, s2) && Moves(s2, s3)
    ensures Lone(s1, name) && Lone(s2, name) && s3 == s0.(failures := s0.failures + [Attempt(name, 0)])
  {
    var user := name + "-oci";
    s1 := s0.(inflight := map[0 := Arrived(user, true, 0, -WINDOW)]);
    s2 := s0.(inflight := map[0 := Admitted(user, true)]);
    s3 := s0.(failures := s0.failures + [Attempt(name, 0)]);
    Stripped(name);
    assert Next(s0, s1, Arrive(0, user, true));
    assert Next(s1, s2, Check(0));
    assert s2.inflight - {0} == map[];
    assert Next(s2, s3, Fail(0));
  }

  lemma {:induction false} AddStep(run: seq<State>, s: State) returns (next: seq<State>)
    requires IsRun(run) && Moves(run[|run| - 1], s)
    ensures IsRun(next) && next[|next| - 1] == s
    ensures forall x | x in next :: x in run || x == s
  {
    next := run + [s];
    assert next[..|run|] == run;
  }

  /** The bound on a name, for all runs with at most k requests for it in flight
      and only requests of admitted kinds. */
  ghost predicate Holds(name: string, k: nat, admits: (string, bool) -> bool) {
    forall run: seq<State> | IsRun(run) && (forall s | s in run :: |Active(s, name)| <= k && Uses(s, admits)) ::
      EveryWindow(run[|run| - 1].failures, name, 9 + k)
  }

  /** Whatever kinds of requests are admitted, the lockout bounds a name exactly
      when access tokens sent as the name with "-oci" behind it are not. */
  lemma {:induction false} LockoutExact(name: string, k: nat, admits: (string, bool) -> bool)
    ensures Holds(name, k, admits) <==> !admits(name + "-oci", true)
  {
    if admits(name + "-oci", true) {
      var run := SuffixEvades(name, admits, 10 + k);
      assert InWindow(run[|run| - 1].failures, name, -1) > 9 + k;
      assert !EveryWindow(run[|run| - 1].failures, name, 9 + k);
    } else {
      forall run: seq<State> | IsRun(run) && (forall s | s in run :: |Active(s, name)| <= k && Uses(s, admits))
        ensures EveryWindow(run[|run| - 1].failures, name, 9 + k)
      {
        assert forall s | s in run :: Bounded(s, name, k);
        LockoutBound(run, name, k);
      }
    }
  }

  // --------------------------------------------------- who is let in, and the bound reached

  lemma {:induction false} PunctualRun(run: seq<State>)
    requires IsRun(run)
    ensures var s := run[|run| - 1]; forall id | id in s.inflight && s.inflight[id].Arrived? :: Punctual(s, s.inflight[id])
  {
    if |run| > 1 {
      var front := run[..|run| - 1];
      PunctualRun(front);
      var step :| Next(front[|front| - 1], run[|run| - 1], step);
    }
  }

  /** The failures of a name after an instant. */
  function After(failures: seq<Attempt>, name: string, since: int): set<nat> {
    set i: nat | i < |failures| && failures[i].name == name && failures[i].at > since
  }

  lemma {:induction false} RecentCounts(failures: seq<Attempt>, name: string, since: int)
    ensures Recent(failures, name, since) == |After(failures, name, since)|
  {
    if failures != [] {
      var n := |failures| - 1;
      RecentCounts(failures[..n], name, since);
      var all, front := After(failures, name, since), After(failures[..n], name, since);
      assert all == front + if failures[n].name == name && failures[n].at > since then {n} else {};
    }
  }

  /** In every run a login is let in exactly when fewer than ten failures of the
      name it was sent with were recorded since fifteen minutes before it came. */
  lemma {:induction false} AdmittedExactly(run: seq<State>, s': State, id: nat)
    requires IsRun(run) && Next(run[|run| - 1], s', Check(id))
    ensures var s := run[|run| - 1]; var r := s.inflight[id];
      && (id in s'.inflight <==> |After(s.failures, r.user, r.at - 15 * 60)| < 10)
      && (id in s'.inflight ==> s'.inflight[id] == Admitted(r.user, r.token))
      && s'.failures == s.failures
  {
    PunctualRun(run);
    var r := run[|run| - 1].inflight[id];
    RecentCounts(run[|run| - 1].failures, r.user, r.since);
  }

  function Below(n: nat): (ids: set<nat>)
    ensures |ids| == n && forall id: nat :: id in ids <==> id < n
  {
    if n == 0 then {} else Below(n - 1) + {n - 1}
  }

  /** Password logins of one name past the check, with the ids below n. */
  ghost predicate InFlight(s: State, name: string, n: nat) {
    s.inflight.Keys == Below(n) && forall id | id in s.inflight :: s.inflight[id] == Admitted(name, false)
  }

  /** At time zero, with that many failures recorded. */
  ghost predicate Counted(s: State, name: string, failed: nat) {
    s.now == 0 && InWindow(s.failures, name, -1) == failed && Recent(s.failures, name, -WINDOW) == failed
  }

  ghost predicate Together(s: State, name: string, n: nat, failed: nat) {
    InFlight(s, name, n) && Counted(s, name, failed)
  }

  /** Only password logins of the name, at most k. */
  ghost predicate Only(s: State, name: string, k: nat) {
    |s.inflight.Keys| <= k && forall id | id in s.inflight :: s.inflight[id].user == name && !s.inflight[id].token
  }

  ghost predicate AllOnly(run: seq<State>, name: string, k: nat) {
    forall s | s in run :: Only(s, name, k)
  }

  lemma {:induction false} OnlyBounded(s: State, name: string, k: nat)
    requires Only(s, name, k)
    ensures Bounded(s, name, k)
  {
    SubsetSize(Active(s, name), s.inflight.Keys);
  }

  lemma {:induction false} Comes(s: State, name: string, n: nat) returns (s1: State)
    requires s.now == 0 && InFlight(s, name, n)
    ensures Next(s, s1, Arrive(n, name, false)) && Only(s1, name, n + 1)
    ensures s1 == s.(inflight := s.inflight[n := Arrived(name, false, 0, -WINDOW)]) && s1.inflight.Keys == Below(n + 1)
  {
    var r := Arrived(name, false, 0, -WINDOW);
    s1 := s.(inflight := s.inflight[n := r]);
    OneKeyMore(s.inflight, n, r);
    assert Next(s, s1, Arrive(n, name, false));
  }

  lemma {:induction false} OneKeyMore(m: map<nat, Request>, n: nat, r: Request)
    requires m.Keys == Below(n)
    ensures n !in m && m[n := r].Keys == Below(n + 1) && |m[n := r].Keys| == n + 1
  {
    assert n !in m.Keys;
    assert m[n := r].Keys == m.Keys + {n};
  }

  lemma {:induction false} Passes(s: State, s1: State, name: string, n: nat) returns (s2: State)
    requires s1.now == 0 && InFlight(s, name, n) && Recent(s1.failures, name, -WINDOW) < 10
    requires s1 == s.(inflight := s.inflight[n := Arrived(name, false, 0, -WINDOW)]) && s1.inflight.Keys == Below(n + 1)
    ensures Next(s1, s2, Check(n)) && Only(s2, name, n + 1) && InFlight(s2, name, n + 1)
    ensures s2.now == 0 && s2.failures == s.failures
  {
    s2 := s1.(inflight := s1.inflight[n := Admitted(name, false)]);
    assert s2.inflight.Keys == Below(n + 1);
  }

  /** One more login arrives and passes the check. */
  lemma {:induction false} OneMoreIn(run: seq<State>, name: string, n: nat, failed: nat, k: nat) returns (next: seq<State>)
    requires IsRun(run) && AllOnly(run, name, k) && Together(run[|run| - 1], name, n, failed) && failed < 10 && n < k
    ensures IsRun(next) && AllOnly(next, name, k) && Together(next[|next| - 1], name, n + 1, failed)
  {
    var s := run[|run| - 1];
    var s1 := Comes(s, name, n);
    var s2 := Passes(s, s1, name, n);
    assert Moves(s, s1) && Moves(s1, s2);
    next := AddStep(run, s1);
    next := AddStep(next, s2);
  }

  lemma {:induction false} Fails(s: State, name: string, n: nat) returns (s1: State)
    requires s.now == 0 && InFlight(s, name, n + 1)
    ensures Next(s, s1, Fail(n)) && InFlight(s1, name, n) && Only(s1, name, n)
    ensures s1.now == 0 && s1.failures == s.failures + [Attempt(name, 0)]
  {
    s1 := s.(inflight := s.inflight - {n}, failures := s.failures + [Attempt(name, 0)]);
    assert s1.inflight.Keys == Below(n);
  }

  lemma {:induction false} CountsOne(s: State, s1: State, name: string, failed: nat)
    requires Counted(s, name, failed) && s1.now == 0 && s1.failures == s.failures + [Attempt(name, 0)]
    ensures Counted(s1, name, failed + 1)
  {
    CountSnoc(s.failures, Attempt(name, 0), name, -1);
    assert s1.failures[..|s.failures|] == s.failures;
  }

  /** The last of them fails. */
  lemma {:induction false} OneMoreFails(run: seq<State>, name: string, n: nat, failed: nat, k: nat) returns (next: seq<State>)
    requires IsRun(run) && AllOnly(run, name, k) && Together(run[|run| - 1], name, n + 1, failed) && n < k
    ensures IsRun(next) && AllOnly(next, name, k) && Together(next[|next| - 1], name, n, failed + 1)
  {
    var s := run[|run| - 1];
    var s1 := Fails(s, name, n);
    CountsOne(s, s1, name, failed);
    assert Moves(s, s1);
    next := AddStep(run, s1);
  }

  /** Failures one at a time, as long as the check lets them. */
  lemma {:induction false} OneByOne(name: string, failed: nat, k: nat) returns (run: seq<State>)
    requires failed <= 9 && k >= 1
    ensures IsRun(run) && AllOnly(run, name, k) && Together(run[|run| - 1], name, 0, failed)
  {
    if failed == 0 {
      run := [State(0, [], map[])];
      assert run[0].inflight.Keys == {};
    } else {
      run := OneByOne(name, failed - 1, k);
      run := OneMoreIn(run, name, 0, failed - 1, k);
      run := OneMoreFails(run, name, 0, failed - 1, k);
    }
  }

  lemma {:induction false} AllIn(run: seq<State>, name: string, n: nat, k: nat) returns (next: seq<State>)
    requires IsRun(run) && AllOnly(run, name, k) && Together(run[|run| - 1], name, 0, 9) && n <= k
    ensures IsRun(next) && AllOnly(next, name, k) && Together(next[|next| - 1], name, n, 9)
  {
    if n == 0 {
      next := run;
    } else {
      next := AllIn(run, name, n - 1, k);
      next := OneMoreIn(next, name, n - 1, 9, k);
    }
  }

  lemma {:induction false} AllFail(run: seq<State>, name: string, n: nat, failed: nat, k: nat) returns (next: seq<State>)
    requires IsRun(run) && AllOnly(run, name, k) && Together(run[|run| - 1], name, n, failed) && n <= k
    ensures IsRun(next) && AllOnly(next, name, k) && Together(next[|next| - 1], name, 0, failed + n)
    decreases n
  {
    if n == 0 {
      next := run;
    } else {
      next := OneMoreFails(run, name, n - 1, failed, k);
      next := AllFail(next, name, n - 1, failed + 1, k);
    }
  }

  /** The bound is reached: for every name and k, k password logins at a time
      record 9+k failures in one window. */
  lemma {:induction false} BoundReached(name: string, k: nat) returns (run: seq<State>)
    requires k >= 1
    ensures IsRun(run) && forall s | s in run :: Bounded(s, name, k)
    ensures InWindow(run[|run| - 1].failures, name, -1) == 9 + k
  {
    run := OneByOne(name, 9, k);
    run := AllIn(run, name, k, k);
    run := AllFail(run, name, k, 9, k);
    forall s | s in run ensures Bounded(s, name, k) {
      OnlyBounded(s, name, k);
    }
  }
}
