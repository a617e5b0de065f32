/** The cache-aside store under concurrency (`internal/cache/cached_db.go`), over
    all manifests and scan reports at once: how old an answer can be. */
module CacheStaleness {
  import opened Wrappers
  import CachedStores

  // -------------------------------------------------------------------- rows

  datatype Row =
    | Manifest(repo: string, reference: string)
    | Report(digest: string, scanner: string)

  /** Rows whose cache keys tell them apart. */
  predicate Legal(row: Row) {
    if row.Manifest? then ':' !in row.repo else ':' !in row.scanner
  }

  function CacheKey(row: Row): string {
    match row
    case Manifest(repo, reference) => CachedStores.ManifestKey("", repo, reference)
    case Report(digest, scanner) => CachedStores.ScanKey(digest, scanner)
  }

  lemma {:induction false} KeysApart(a: Row, b: Row)
    requires Legal(a) && Legal(b) && CacheKey(a) == CacheKey(b)
    ensures a == b
  {
    match (a, b)
    case (Manifest(r, x), Manifest(r', x')) => CachedStores.ManifestKeyInjective(r, x, r', x');
    case (Report(d, c), Report(d', c')) => CachedStores.ScanKeyInjective(d, c, d', c');
    case (Manifest(r, x), Report(d, c)) => CachedStores.KeyFamiliesDisjoint(r, x, d, c);
    case (Report(d, c), Manifest(r, x)) => CachedStores.KeyFamiliesDisjoint(r, x, d, c);
  }

  /** The configured times to live; zero means no expiry. */
  datatype Ttls = Ttls(manifest: nat, report: nat)

  function TtlOf(ttls: Ttls, row: Row): nat {
    if row.Manifest? then ttls.manifest else ttls.report
  }

  // -------------------------------------------------------------- the system

  /** A Redis entry; `row`, `src` (where in the history its value was read or
      written) and `setAt` are history. */
  datatype Entry = Entry(value: string, expiry: Option<int>, row: Row, src: nat, setAt: int)

  datatype Snapshot = Snapshot(at: int, rows: map<Row, string>)

  /** An answer given to thread `caller`, None for a missing row, with the
      snapshot it comes from. */
  datatype Answer = Answer(row: Row, value: Option<string>, at: int, src: nat, caller: nat)

  datatype Thread =
    | Reading(row: Row)                          // GetManifest / GetScanReport, before the cache
    | Missed(row: Row)                           // cache missed, failed or disabled
    | Filling(row: Row, value: string, src: nat) // row read or saved, cache Set still to come
    | Putting(row: Row, written: Option<string>) // PutManifest / DeleteManifest, before the row
    | Invalidating(row: Row)                     // row written, cache Delete still to come
    | Saving(row: Row, value: string)            // SaveScanReport, before the row
    | Done(row: Row)

  datatype State = State(
    now: int,
    ttls: Ttls,
    rows: map<Row, string>,
    cache: map<string, Entry>,
    threads: map<nat, Thread>,
    history: seq<Snapshot>,
    answers: set<Answer>,
    started: map<nat, Thread>)
  {
    function With(t: nat, th: Thread): State {
      this.(threads := threads[t := th])
    }
  }

  datatype Step =
    | Tick(to: int)
    | Start(t: nat, th: Thread)
    | Evict(key: string)
    | Act(t: nat, call: Call)

  datatype Call =
    | CacheGet(ok: bool)
    | RowGet
    | CacheSet(ok: bool)
    | RowPut
    | CacheDelete(ok: bool)
    | RowSave

  predicate Live(s: State, e: Entry) {
    e.expiry == None || s.now < e.expiry.value
  }

  function Expiry(ttl: nat, at: int): Option<int> {
    if ttl == 0 then None else Some(at + ttl)
  }

  /** `Set` at this instant. */
  function Stored(s: State, th: Thread): Entry
    requires th.Filling?
  {
    Entry(th.value, Expiry(TtlOf(s.ttls, th.row), s.now), th.row, th.src, s.now)
  }

  predicate Starts(th: Thread) {
    Legal(th.row) && (th.Reading? || (th.Putting? && th.row.Manifest?) || (th.Saving? && th.row.Report?))
  }

  /** The step itself; the history is extended by `Next`. */
  predicate Moves(s: State, mid: State, step: Step) {
    match step
    case Tick(to) => s.now <= to && mid == s.(now := to)
    case Evict(key) => mid == s.(cache := s.cache - {key})
    case Start(t, th) => t !in s.threads && Starts(th) && mid == s.With(t, th).(started := s.started[t := th])
    case Act(t, call) => t in s.threads && Calls(s, mid, t, s.threads[t], call)
  }

  predicate Calls(s: State, mid: State, t: nat, th: Thread, call: Call) {
    var key := CacheKey(th.row);
    match call
    case CacheGet(ok) =>
      && th.Reading?
      && mid == if ok && key in s.cache && Live(s, s.cache[key])
                then s.With(t, Done(th.row)).(
                       answers := s.answers + {Answer(th.row, Some(s.cache[key].value), s.now, s.cache[key].src, t)})
                else s.With(t, Missed(th.row))
    case RowGet =>
      && th.Missed? && s.history != []
      && mid == if th.row !in s.rows
                then s.With(t, Done(th.row)).(answers := s.answers + {Answer(th.row, None, s.now, |s.history| - 1, t)})
                else s.With(t, Filling(th.row, s.rows[th.row], |s.history| - 1)).(
                       answers := s.answers + {Answer(th.row, Some(s.rows[th.row]), s.now, |s.history| - 1, t)})
    case CacheSet(ok) =>
      && th.Filling?
      && mid == if ok then s.With(t, Done(th.row)).(cache := s.cache[key := Stored(s, th)]) else s.With(t, Done(th.row))
    case RowPut =>
      && th.Putting?
      && mid == s.With(t, Invalidating(th.row)).(
                  rows := if th.written.Some? then s.rows[th.row := th.written.value] else s.rows - {th.row})
    case CacheDelete(ok) =>
      th.Invalidating? && mid == if ok then s.With(t, Done(th.row)).(cache := s.cache - {key}) else s.With(t, Done(th.row))
    case RowSave =>
      th.Saving? && mid == s.With(t, Filling(th.row, th.value, |s.history|)).(rows := s.rows[th.row := th.value])
  }

  function Remember(mid: State): State {
    mid.(history := mid.history + [Snapshot(mid.now, mid.rows)])
  }

  ghost predicate Next(s: State, s': State) {
    exists mid, step :: Moves(s, mid, step) && s' == Remember(mid)
  }

  ghost predicate Initial(s: State) {
    s.cache == map[] && s.threads == map[] && s.started == map[] && s.answers == {} && s.history == [Snapshot(s.now, s.rows)]
  }

  /** No fill or save waits longer than `latency` between row and cache. */
  ghost predicate Prompt(s: State, latency: int) {
    forall t | t in s.threads && s.threads[t].Filling? && s.threads[t].src < |s.history| ::
      s.now - s.history[s.threads[t].src].at <= latency
  }

  ghost predicate IsRun(run: seq<State>, latency: int) {
    && run != [] && Prompt(run[|run| - 1], latency)
    && if |run| == 1 then Initial(run[0])
       else IsRun(run[..|run| - 1], latency) && Next(run[|run| - 2], run[|run| - 1])
  }

  // --------------------------------------------------------------- invariant

  predicate Held(x: Snapshot, row: Row, value: Option<string>) {
    value == if row in x.rows then Some(x.rows[row]) else None
  }

  /** The row held this value at that snapshot. */
  predicate Was(s: State, src: nat, row: Row, value: Option<string>) {
    src < |s.history| && Held(s.history[src], row, value) && s.history[src].at <= s.now
  }

  /** The value answered was the row's, and recently so if entries expire; a row
      reported missing is missing. */
  ghost predicate AnswerOk(s: State, latency: int, a: Answer) {
    && Was(s, a.src, a.row, a.value) && s.history[a.src].at <= a.at <= s.now
    && (a.value == None ==> s.history[a.src].at == a.at)
    && (TtlOf(s.ttls, a.row) > 0 ==> a.at - s.history[a.src].at < TtlOf(s.ttls, a.row) + latency)
  }

  ghost predicate AnswersOk(s: State, latency: int) {
    forall a | a in s.answers :: AnswerOk(s, latency, a)
  }

  ghost predicate EntryOk(s: State, latency: int, key: string, e: Entry) {
    && Legal(e.row) && CacheKey(e.row) == key && Was(s, e.src, e.row, Some(e.value))
    && e.setAt <= s.now && e.expiry == Expiry(TtlOf(s.ttls, e.row), e.setAt)
    && e.setAt - s.history[e.src].at <= latency
  }

  predicate ThreadOk(s: State, th: Thread) {
    Legal(th.row) && (th.Filling? ==> Was(s, th.src, th.row, Some(th.value)))
  }

  /** What a call has done once its thread has moved on. */
  ghost predicate Answered(s: State, t: nat, row: Row) {
    exists a :: a in s.answers && a.caller == t && a.row == row
  }

  ghost predicate Recorded(s: State, row: Row, value: Option<string>) {
    exists i: nat :: i < |s.history| && Held(s.history[i], row, value)
  }

  /** A read is still on its way or has been answered, a write is still on its way
      or has reached the row. */
  ghost predicate Underway(s: State, t: nat, first: Thread, th: Thread) {
    match first
    case Reading(row) => th == Reading(row) || th == Missed(row) || Answered(s, t, row)
    case Putting(row, written) => th == first || Recorded(s, row, written)
    case Saving(row, value) => th == first || Recorded(s, row, Some(value))
    case _ => false
  }

  ghost predicate CallInv(s: State) {
    forall t | t in s.threads :: t in s.started && Underway(s, t, s.started[t], s.threads[t])
  }

  ghost predicate Inv(s: State, latency: int) {
    && s.history != [] && s.history[|s.history| - 1] == Snapshot(s.now, s.rows)
    && (forall t | t in s.threads :: ThreadOk(s, s.threads[t]))
    && (forall k | k in s.cache :: EntryOk(s, latency, k, s.cache[k]))
    && AnswersOk(s, latency) && CallInv(s)
  }

  /** What one step leaves behind. */
  ghost predicate Later(s: State, s': State) {
    s.history <= s'.history && s.now <= s'.now && s'.ttls == s.ttls && s.answers <= s'.answers
  }

  lemma {:induction false} CallGrows(s: State, mid: State, t: nat, call: Call)
    requires t in s.threads && Calls(s, mid, t, s.threads[t], call)
    ensures mid.history == s.history && mid.now == s.now && mid.ttls == s.ttls && s.answers <= mid.answers
  {
  }

  lemma {:induction false} Grows(s: State, mid: State, step: Step)
    requires Moves(s, mid, step)
    ensures mid.history == s.history && Later(s, Remember(mid))
  {
    if step.Act? {
      CallGrows(s, mid, step.t, step.call);
    }
  }

  lemma {:induction false} WasLasts(s: State, s': State, src: nat, row: Row, value: Option<string>)
    requires Was(s, src, row, value) && Later(s, s')
    ensures Was(s', src, row, value) && s'.history[src] == s.history[src]
  {
  }

  lemma {:induction false} EntryLasts(s: State, s': State, latency: int, key: string, e: Entry)
    requires EntryOk(s, latency, key, e) && Later(s, s')
    ensures EntryOk(s', latency, key, e)
  {
    WasLasts(s, s', e.src, e.row, Some(e.value));
  }

  lemma {:induction false} AnswerLasts(s: State, s': State, latency: int, a: Answer)
    requires AnswerOk(s, latency, a) && Later(s, s')
    ensures AnswerOk(s', latency, a)
  {
    WasLasts(s, s', a.src, a.row, a.value);
  }

  lemma {:induction false} ThreadLasts(s: State, s': State, th: Thread)
    requires ThreadOk(s, th) && Later(s, s')
    ensures ThreadOk(s', th)
  {
    if th.Filling? {
      WasLasts(s, s', th.src, th.row, Some(th.value));
    }
  }

  lemma {:induction false} NewThread(s: State, mid: State, t: nat, call: Call)
    requires s.history != [] && s.history[|s.history| - 1] == Snapshot(s.now, s.rows)
    requires t in s.threads && ThreadOk(s, s.threads[t]) && Calls(s, mid, t, s.threads[t], call)
    ensures t in mid.threads && ThreadOk(Remember(mid), mid.threads[t]) && mid.threads == s.threads[t := mid.threads[t]]
  {
    var s' := Remember(mid);
    if call.RowGet? {
      assert s'.history[|s.history| - 1] == s.history[|s.history| - 1];
    }
  }

  lemma {:induction false} NewEntries(s: State, mid: State, t: nat, call: Call, latency: int, k: string)
    requires Inv(s, latency) && Prompt(s, latency)
    requires t in s.threads && Calls(s, mid, t, s.threads[t], call) && k in mid.cache
    ensures EntryOk(s, latency, k, mid.cache[k])
  {
    assert ThreadOk(s, s.threads[t]);
  }

  /** An answer from the cache is for the row that was asked for. */
  lemma {:induction false} FromCache(s: State, latency: int, row: Row, t: nat)
    requires Inv(s, latency) && latency >= 0 && Legal(row) && CacheKey(row) in s.cache && Live(s, s.cache[CacheKey(row)])
    ensures var e := s.cache[CacheKey(row)]; AnswerOk(s, latency, Answer(row, Some(e.value), s.now, e.src, t))
  {
    var e := s.cache[CacheKey(row)];
    assert EntryOk(s, latency, CacheKey(row), e);
    KeysApart(e.row, row);
  }

  lemma {:induction false} NewAnswers(s: State, mid: State, t: nat, call: Call, latency: int, a: Answer)
    requires Inv(s, latency) && latency >= 0
    requires t in s.threads && Calls(s, mid, t, s.threads[t], call) && a in mid.answers
    ensures AnswerOk(s, latency, a)
  {
    var th := s.threads[t];
    assert ThreadOk(s, th);
    if call.CacheGet? && CacheKey(th.row) in s.cache && Live(s, s.cache[CacheKey(th.row)]) {
      FromCache(s, latency, th.row, t);
    }
  }

  lemma {:induction false} UnderwayLasts(s: State, s': State, t: nat, first: Thread, th: Thread)
    requires Underway(s, t, first, th) && Later(s, s')
    ensures Underway(s', t, first, th)
  {
    match first
    case Reading(row) =>
      if Answered(s, t, row) {
        var a :| a in s.answers && a.caller == t && a.row == row;
        assert a in s'.answers;
      }
    case Putting(row, written) => RecordedLasts(s, s', row, written);
    case Saving(row, value) => RecordedLasts(s, s', row, Some(value));
  }

  lemma {:induction false} RecordedLasts(s: State, s': State, row: Row, value: Option<string>)
    requires Later(s, s')
    ensures Recorded(s, row, value) ==> Recorded(s', row, value)
  {
    if Recorded(s, row, value) {
      var i: nat :| i < |s.history| && Held(s.history[i], row, value);
      assert Held(s'.history[i], row, value);
    }
  }

  /** A read that leaves has its answer, a write that leaves is on record. */
  lemma {:induction false} CallMoves(s: State, mid: State, t: nat, call: Call, first: Thread)
    requires t in s.threads && Calls(s, mid, t, s.threads[t], call) && Underway(s, t, first, s.threads[t])
    requires Later(s, Remember(mid))
    ensures t in mid.threads && Underway(Remember(mid), t, first, mid.threads[t]) && mid.started == s.started
  {
    var s', th := Remember(mid), s.threads[t];
    UnderwayLasts(s, s', t, first, th);
    if call.RowPut? || call.RowSave? {
      assert s'.history[|s.history|] == Snapshot(mid.now, mid.rows);
      assert Held(s'.history[|s.history|], th.row, if call.RowPut? then th.written else Some(th.value));
    } else if call.CacheGet? || call.RowGet? {
      if mid.threads[t] != Missed(th.row) {
        var a :| a in mid.answers && a.caller == t && a.row == th.row;
        assert a in s'.answers;
      }
    }
  }

  lemma {:induction false} CallKeeps(s: State, mid: State, t: nat, call: Call, latency: int)
    requires Inv(s, latency) && latency >= 0 && Prompt(s, latency)
    requires t in s.threads && Calls(s, mid, t, s.threads[t], call)
    ensures Inv(Remember(mid), latency)
  {
    var s' := Remember(mid);
    Grows(s, mid, Act(t, call));
    NewThread(s, mid, t, call);
    CallMoves(s, mid, t, call, s.started[t]);
    forall u | u in s'.threads ensures u in s'.started && Underway(s', u, s'.started[u], s'.threads[u]) {
      if u != t {
        UnderwayLasts(s, s', u, s.started[u], s.threads[u]);
      }
    }
    forall u | u in s'.threads ensures ThreadOk(s', s'.threads[u]) {
      if u != t {
        ThreadLasts(s, s', s.threads[u]);
      }
    }
    forall k | k in s'.cache ensures EntryOk(s', latency, k, s'.cache[k]) {
      NewEntries(s, mid, t, call, latency, k);
      EntryLasts(s, s', latency, k, s'.cache[k]);
    }
    forall a | a in s'.answers ensures AnswerOk(s', latency, a) {
      NewAnswers(s, mid, t, call, latency, a);
      AnswerLasts(s, s', latency, a);
    }
  }

  lemma {:induction false} QuietKeeps(s: State, mid: State, step: Step, latency: int)
    requires Inv(s, latency) && !step.Act? && Moves(s, mid, step)
    ensures Inv(Remember(mid), latency)
  {
    var s' := Remember(mid);
    Grows(s, mid, step);
    forall u | u in s'.threads ensures u in s'.started && Underway(s', u, s'.started[u], s'.threads[u]) {
      if u in s.threads {
        UnderwayLasts(s, s', u, s.started[u], s.threads[u]);
      }
    }
    forall u | u in s'.threads ensures ThreadOk(s', s'.threads[u]) {
      if u in s.threads {
        ThreadLasts(s, s', s.threads[u]);
      }
    }
    forall k | k in s'.cache ensures EntryOk(s', latency, k, s'.cache[k]) {
      EntryLasts(s, s', latency, k, s.cache[k]);
    }
    forall a | a in s'.answers ensures AnswerOk(s', latency, a) {
      AnswerLasts(s, s', latency, a);
    }
  }

  /** In every interleaving of reads, writes, deletes, saves, evictions and
      failed cache calls on any rows, with fills no slower than `latency`, every
      value answered was that row's value at some instant; less than ttl +
      latency before, if the ttl of its family is positive. */
  lemma {:induction false} BoundedStaleness(run: seq<State>, latency: int)
    requires IsRun(run, latency) && latency >= 0
    ensures Inv(run[|run| - 1], latency) && run[|run| - 1].ttls == run[0].ttls
    ensures AnswersOk(run[|run| - 1], latency)
  {
    if |run| > 1 {
      var front := run[..|run| - 1];
      BoundedStaleness(front, latency);
      var s, s' := front[|front| - 1], run[|run| - 1];
      var mid, step :| Moves(s, mid, step) && s' == Remember(mid);
      Grows(s, mid, step);
      if step.Act? {
        CallKeeps(s, mid, step.t, step.call, latency);
      } else {
        QuietKeeps(s, mid, step, latency);
      }
    }
  }

  /** Every call that is over was a read that got an answer, or a write that
      reached the row. */
  lemma {:induction false} CallsDone(run: seq<State>, latency: int, t: nat)
    requires IsRun(run, latency) && latency >= 0 && t in run[|run| - 1].threads && run[|run| - 1].threads[t].Done?
    ensures var s := run[|run| - 1];
      && t in s.started
      && match s.started[t]
         case Reading(row) => exists a :: a in s.answers && a.caller == t && a.row == row
         case Putting(row, written) => exists i: nat :: i < |s.history| && Held(s.history[i], row, written)
         case Saving(row, value) => exists i: nat :: i < |s.history| && Held(s.history[i], row, Some(value))
         case _ => false
  {
    BoundedStaleness(run, latency);
    var s := run[|run| - 1];
    assert Underway(s, t, s.started[t], s.threads[t]);
  }

  // ------------------------------------------------------- no bound at ttl 0

  /** Reached by a prompt run with these ttls. */
  ghost predicate Reachable(s: State, latency: int) {
    exists run: seq<State> :: IsRun(run, latency) && run[|run| - 1] == s && run[0].ttls == s.ttls
  }

  lemma {:induction false} Reaches(s: State, mid: State, step: Step, latency: int)
    requires Reachable(s, latency) && Moves(s, mid, step) && Prompt(Remember(mid), latency)
    ensures Reachable(Remember(mid), latency)
  {
    var run: seq<State> :| IsRun(run, latency) && run[|run| - 1] == s && run[0].ttls == s.ttls;
    var next := run + [Remember(mid)];
    assert next[..|run|] == run;
    assert Next(s, Remember(mid));
    Grows(s, mid, step);
    assert IsRun(next, latency) && next[|next| - 1] == Remember(mid) && next[0] == run[0];
  }

  /** Everything so far happened at time zero. */
  predicate AtZero(s: State) {
    s.now == 0 && forall x | x in s.history :: x.at == 0
  }

  lemma {:induction false} ZeroStep(s: State, mid: State, step: Step, latency: int) returns (s': State)
    requires Reachable(s, latency) && latency >= 0 && AtZero(s) && Moves(s, mid, step) && mid.now == 0
    ensures s' == Remember(mid) && Reachable(s', latency) && AtZero(s') && s'.ttls == s.ttls
  {
    Grows(s, mid, step);
    s' := Remember(mid);
    forall t | t in s'.threads && s'.threads[t].Filling? && s'.threads[t].src < |s'.history|
      ensures s'.now - s'.history[s'.threads[t].src].at <= latency
    {
      assert s'.history[s'.threads[t].src] in s'.history;
    }
    Reaches(s, mid, step, latency);
  }

  lemma {:induction false} OldRow(row: Row, ttls: Ttls, latency: int) returns (s: State)
    requires latency >= 0
    ensures Reachable(s, latency) && AtZero(s) && s.ttls == ttls && row in s.rows && s.rows[row] == "old"
    ensures s.threads.Keys == {}
  {
    s := State(0, ttls, map[row := "old"], map[], map[], [Snapshot(0, map[row := "old"])], {}, map[]);
    assert IsRun([s], latency) && [s][|[s]| - 1] == s;
  }

  /** Only thread `t` is new or different. */
  ghost predicate OnlyOne(s: State, s': State, t: nat) {
    s'.threads.Keys == s.threads.Keys + {t} && forall u | u in s.threads && u != t :: s'.threads[u] == s.threads[u]
  }

  lemma {:induction false} StartAt(s: State, t: nat, th: Thread, latency: int) returns (s': State)
    requires Reachable(s, latency) && latency >= 0 && AtZero(s) && t !in s.threads && Starts(th)
    ensures Reachable(s', latency) && AtZero(s') && s'.ttls == s.ttls && s'.rows == s.rows && s'.cache == s.cache
    ensures OnlyOne(s, s', t) && s'.threads[t] == th
  {
    s' := ZeroStep(s, s.With(t, th).(started := s.started[t := th]), Start(t, th), latency);
  }

  lemma {:induction false} OneMoves(s: State, mid: State, t: nat, call: Call)
    requires t in s.threads && Calls(s, mid, t, s.threads[t], call)
    ensures t in mid.threads && OnlyOne(s, mid, t) && mid.now == s.now
  {
  }

  lemma {:induction false} CallAt(s: State, mid: State, t: nat, call: Call, latency: int) returns (s': State)
    requires Reachable(s, latency) && latency >= 0 && AtZero(s) && t in s.threads && Calls(s, mid, t, s.threads[t], call)
    ensures Reachable(s', latency) && AtZero(s') && s'.ttls == s.ttls && s'.rows == mid.rows && s'.cache == mid.cache
    ensures t in mid.threads && OnlyOne(s, s', t) && s'.threads[t] == mid.threads[t]
  {
    OneMoves(s, mid, t, call);
    s' := ZeroStep(s, mid, Act(t, call), latency);
  }

  /** A reader misses the cache ... */
  lemma {:induction false} OldMissed(row: Row, ttls: Ttls, latency: int) returns (s: State)
    requires latency >= 0 && Legal(row)
    ensures Reachable(s, latency) && AtZero(s) && s.ttls == ttls && row in s.rows && s.rows[row] == "old"
    ensures s.threads.Keys == {0} && s.threads[0] == Missed(row)
  {
    s := OldRow(row, ttls, latency);
    s := StartAt(s, 0, Reading(row), latency);
    s := CallAt(s, s.With(0, Missed(row)), 0, CacheGet(false), latency);
  }

  /** ... reads the row ... */
  lemma {:induction false} OldRead(row: Row, ttls: Ttls, latency: int) returns (s: State, src: nat)
    requires latency >= 0 && Legal(row)
    ensures Reachable(s, latency) && AtZero(s) && s.ttls == ttls
    ensures s.threads.Keys == {0} && s.threads[0] == Filling(row, "old", src)
  {
    var missed := OldMissed(row, ttls, latency);
    s, src := RowGetAt(missed, row, latency);
  }

  lemma {:induction false} RowGetAt(s: State, row: Row, latency: int) returns (s': State, src: nat)
    requires Reachable(s, latency) && latency >= 0 && AtZero(s) && row in s.rows && s.rows[row] == "old"
    requires s.threads.Keys == {0} && s.threads[0] == Missed(row)
    ensures Reachable(s', latency) && AtZero(s') && s'.ttls == s.ttls
    ensures s'.threads.Keys == {0} && s'.threads[0] == Filling(row, "old", src)
  {
    NonEmptyHistory(s, latency);
    src := |s.history| - 1;
    var mid := s.With(0, Filling(row, "old", src)).(answers := s.answers + {Answer(row, Some("old"), 0, src, 0)});
    s' := CallAt(s, mid, 0, RowGet, latency);
  }

  lemma {:induction false} NonEmptyHistory(s: State, latency: int)
    requires Reachable(s, latency) && latency >= 0
    ensures s.history != []
  {
    var run: seq<State> :| IsRun(run, latency) && run[|run| - 1] == s;
    BoundedStaleness(run, latency);
  }

  /** ... and fills the cache, without an expiry. */
  lemma {:induction false} OldCached(row: Row, ttls: Ttls, latency: int) returns (s: State, e: Entry)
    requires latency >= 0 && Legal(row) && TtlOf(ttls, row) == 0
    ensures Reachable(s, latency) && AtZero(s) && s.ttls == ttls
    ensures s.threads.Keys == {0} && s.threads[0] == Done(row)
    ensures CacheKey(row) in s.cache && s.cache[CacheKey(row)] == e && e.value == "old" && e.expiry == None
  {
    var src;
    s, src := OldRead(row, ttls, latency);
    e := Entry("old", None, row, src, 0);
    s := CallAt(s, s.With(0, Done(row)).(cache := s.cache[CacheKey(row) := e]), 0, CacheSet(true), latency);
  }

  /** The row changes, but the cache call after it fails: an invalidation for a
      manifest, the write-through for a report. */
  lemma {:induction false} LostChange(s: State, row: Row, latency: int) returns (s': State)
    requires Reachable(s, latency) && latency >= 0 && AtZero(s) && Legal(row) && 1 !in s.threads
    ensures Reachable(s', latency) && AtZero(s') && s'.ttls == s.ttls && s'.cache == s.cache
    ensures row in s'.rows && s'.rows[row] == "new" && OnlyOne(s, s', 1) && s'.threads[1] == Done(row)
  {
    var mid;
    if row.Manifest? {
      mid := Changed(s, row, latency);
    } else {
      mid := Saved(s, row, latency);
    }
    s' := FailedAt(mid, row, latency);
    OnlyOneTwice(s, mid, s');
  }

  lemma {:induction false} Changed(s: State, row: Row, latency: int) returns (s': State)
    requires Reachable(s, latency) && latency >= 0 && AtZero(s) && Legal(row) && row.Manifest? && 1 !in s.threads
    ensures Reachable(s', latency) && AtZero(s') && s'.ttls == s.ttls && s'.cache == s.cache
    ensures row in s'.rows && s'.rows[row] == "new" && OnlyOne(s, s', 1) && s'.threads[1] == Invalidating(row)
  {
    var mid := StartAt(s, 1, Putting(row, Some("new")), latency);
    s' := RowPutAt(mid, row, latency);
    OnlyOneTwice(s, mid, s');
  }

  lemma {:induction false} Saved(s: State, row: Row, latency: int) returns (s': State)
    requires Reachable(s, latency) && latency >= 0 && AtZero(s) && Legal(row) && row.Report? && 1 !in s.threads
    ensures Reachable(s', latency) && AtZero(s') && s'.ttls == s.ttls && s'.cache == s.cache
    ensures row in s'.rows && s'.rows[row] == "new" && OnlyOne(s, s', 1) && s'.threads[1].Filling? && s'.threads[1].row == row
  {
    var mid := StartAt(s, 1, Saving(row, "new"), latency);
    s' := RowSavedAt(mid, row, latency);
    OnlyOneTwice(s, mid, s');
  }

  lemma {:induction false} OnlyOneTwice(s: State, s1: State, s2: State)
    requires OnlyOne(s, s1, 1) && OnlyOne(s1, s2, 1)
    ensures OnlyOne(s, s2, 1)
  {
  }

  lemma {:induction false} FailedAt(s: State, row: Row, latency: int) returns (s': State)
    requires Reachable(s, latency) && latency >= 0 && AtZero(s) && 1 in s.threads
    requires s.threads[1].row == row && (s.threads[1].Invalidating? || s.threads[1].Filling?)
    ensures Reachable(s', latency) && AtZero(s') && s'.ttls == s.ttls && s'.cache == s.cache && s'.rows == s.rows
    ensures OnlyOne(s, s', 1) && s'.threads[1] == Done(row)
  {
    var call := if s.threads[1].Filling? then CacheSet(false) else CacheDelete(false);
    s' := CallAt(s, s.With(1, Done(row)), 1, call, latency);
  }

  lemma {:induction false} RowPutAt(s: State, row: Row, latency: int) returns (s': State)
    requires Reachable(s, latency) && latency >= 0 && AtZero(s)
    requires 1 in s.threads && s.threads[1] == Putting(row, Some("new"))
    ensures Reachable(s', latency) && AtZero(s') && s'.ttls == s.ttls && s'.cache == s.cache
    ensures row in s'.rows && s'.rows[row] == "new" && OnlyOne(s, s', 1) && s'.threads[1] == Invalidating(row)
  {
    s' := CallAt(s, s.With(1, Invalidating(row)).(rows := s.rows[row := "new"]), 1, RowPut, latency);
  }

  lemma {:induction false} RowSavedAt(s: State, row: Row, latency: int) returns (s': State)
    requires Reachable(s, latency) && latency >= 0 && AtZero(s) && 1 in s.threads && s.threads[1] == Saving(row, "new")
    ensures Reachable(s', latency) && AtZero(s') && s'.ttls == s.ttls && s'.cache == s.cache
    ensures row in s'.rows && s'.rows[row] == "new" && OnlyOne(s, s', 1) && s'.threads[1] == Filling(row, "new", |s.history|)
  {
    s' := CallAt(s, s.With(1, Filling(row, "new", |s.history|)).(rows := s.rows[row := "new"]), 1, RowSave, latency);
  }

  /** The row held the value at time zero and never after. */
  predicate OnlyAtZero(s: State, row: Row, value: Option<string>) {
    forall x | x in s.history && Held(x, row, value) :: x.at == 0
  }

  predicate Settled(s: State) {
    forall t | t in s.threads :: !s.threads[t].Filling?
  }

  lemma {:induction false} LaterStep(s: State, mid: State, step: Step, row: Row, latency: int) returns (s': State)
    requires Reachable(s, latency) && Moves(s, mid, step) && Settled(mid)
    requires OnlyAtZero(s, row, Some("old")) && row in mid.rows && mid.rows[row] == "new"
    ensures s' == Remember(mid) && Reachable(s', latency) && OnlyAtZero(s', row, Some("old")) && s'.ttls == s.ttls
  {
    Grows(s, mid, step);
    s' := Remember(mid);
    Reaches(s, mid, step, latency);
    assert !Held(Snapshot(mid.now, mid.rows), row, Some("old"));
  }

  /** A ttl of zero never expires: after one lost cache call the old value is
      answered as late as one likes, long after the row stopped holding it. */
  lemma {:induction false} UnboundedWithoutTtl(row: Row, ttls: Ttls, latency: int, delay: nat) returns (s: State, a: Answer)
    requires latency >= 0 && Legal(row) && TtlOf(ttls, row) == 0
    ensures Reachable(s, latency) && s.ttls == ttls
    ensures a in s.answers && a.row == row && a.at == delay && OnlyAtZero(s, row, a.value)
  {
    var e;
    s, e := OldCached(row, ttls, latency);
    s := LostChange(s, row, latency);
    s := LaterStep(s, s.(now := delay), Tick(delay), row, latency);
    s := LaterStep(s, s.With(2, Reading(row)).(started := s.started[2 := Reading(row)]), Start(2, Reading(row)), row, latency);
    a := Answer(row, Some("old"), delay, e.src, 2);
    s := LaterStep(s, s.With(2, Done(row)).(answers := s.answers + {a}), Act(2, CacheGet(true)), row, latency);
  }

  // ------------------------------------------------------------------- exact

  /** The row held the answered value less than `bound` before the answer. */
  ghost predicate HeldWithin(s: State, a: Answer, bound: int) {
    exists i: nat :: i < |s.history| && Held(s.history[i], a.row, a.value)
      && s.history[i].at <= a.at && a.at - s.history[i].at < bound
  }

  /** `bound` limits the staleness of the row's answers in every run. */
  ghost predicate Bounds(row: Row, ttls: Ttls, latency: int, bound: int) {
    forall run: seq<State>, a: Answer | IsRun(run, latency) && run[0].ttls == ttls && a in run[|run| - 1].answers && a.row == row ::
      HeldWithin(run[|run| - 1], a, bound)
  }

  lemma {:induction false} TtlBounds(row: Row, ttls: Ttls, latency: int)
    requires latency >= 0 && TtlOf(ttls, row) > 0
    ensures Bounds(row, ttls, latency, TtlOf(ttls, row) + latency)
  {
    forall run: seq<State>, a: Answer | IsRun(run, latency) && run[0].ttls == ttls && a in run[|run| - 1].answers && a.row == row
      ensures HeldWithin(run[|run| - 1], a, TtlOf(ttls, row) + latency)
    {
      BoundedStaleness(run, latency);
      assert AnswerOk(run[|run| - 1], latency, a);
    }
  }

  lemma {:induction false} NothingBounds(row: Row, ttls: Ttls, latency: int, bound: int)
    requires latency >= 0 && Legal(row) && TtlOf(ttls, row) == 0
    ensures !Bounds(row, ttls, latency, bound)
  {
    var s, a := UnboundedWithoutTtl(row, ttls, latency, if bound > 0 then bound else 0);
    var run: seq<State> :| IsRun(run, latency) && run[|run| - 1] == s && run[0].ttls == s.ttls;
    assert forall i: nat | i < |s.history| :: s.history[i] in s.history;
    assert !HeldWithin(s, a, bound);
  }

  /** Staleness has a bound at all exactly when the ttl is positive. */
  lemma {:induction false} BoundedIffTtl(row: Row, ttls: Ttls, latency: int)
    requires latency >= 0 && Legal(row)
    ensures (exists bound :: Bounds(row, ttls, latency, bound)) <==> TtlOf(ttls, row) > 0
  {
    if TtlOf(ttls, row) > 0 {
      TtlBounds(row, ttls, latency);
    } else {
      forall bound ensures !Bounds(row, ttls, latency, bound) {
        NothingBounds(row, ttls, latency, bound);
      }
    }
  }

  /** For each family it is its own ttl that counts. */
  lemma {:induction false} FamilyTtls(ttls: Ttls, repo: string, reference: string, digest: string, scanner: string, latency: int)
    requires latency >= 0 && ':' !in repo && ':' !in scanner
    ensures (exists bound :: Bounds(Manifest(repo, reference), ttls, latency, bound)) <==> ttls.manifest > 0
    ensures (exists bound :: Bounds(Report(digest, scanner), ttls, latency, bound)) <==> ttls.report > 0
    ensures ttls.manifest > 0 ==> Bounds(Manifest(repo, reference), ttls, latency, ttls.manifest + latency)
    ensures ttls.report > 0 ==> Bounds(Report(digest, scanner), ttls, latency, ttls.report + latency)
  {
    BoundedIffTtl(Manifest(repo, reference), ttls, latency);
    BoundedIffTtl(Report(digest, scanner), ttls, latency);
    if ttls.manifest > 0 {
      TtlBounds(Manifest(repo, reference), ttls, latency);
    }
    if ttls.report > 0 {
      TtlBounds(Report(digest, scanner), ttls, latency);
    }
  }
}
