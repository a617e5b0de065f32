/** Usage metering (`internal/tenancy/metering.go`): concurrent `TrackBandwidth`
    calls and flushes that swap the cache out, insert it row by row in one
    transaction, and commit or roll back. */
module Metering {

  datatype Event = Event(id: nat, tenant: int, bytes: int)

  type Batch = map<int, seq<Event>>

  /** How often an event occurs in a map from tenant to events. */
  function Count(b: Batch, e: Event): nat {
    if e.tenant in b then multiset(b[e.tenant])[e] else 0
  }

  predicate Filed(b: Batch) {
    forall t, e | t in b && e in b[t] :: e.tenant == t
  }

  // -------------------------------------------------------------- the system

  /** One call of `flushEvents` after its swap: inserting (rows in the open
      transaction, events left), committed, or failed and rolled back. */
  datatype Flush =
    | Inserting(batch: Batch, tx: multiset<Event>, left: Batch)
    | Committed(batch: Batch)
    | RolledBack(batch: Batch)

  /** `table` is the database; `tracked`, and `failed`, the flushes with a failed
      database call, are history. */
  datatype State = State(cache: Batch, flushes: seq<Flush>, table: multiset<Event>, tracked: multiset<Event>, failed: set<nat>)

  datatype Step =
    | Track(e: Event)
    | Swap
    | Insert(i: nat, t: int)
    | Fail(i: nat)
    | Commit(i: nat)

  function Append(b: Batch, e: Event): Batch {
    b[e.tenant := (if e.tenant in b then b[e.tenant] else []) + [e]]
  }

  predicate Next(s: State, s': State, step: Step) {
    match step
    case Track(e) => s' == s.(cache := Append(s.cache, e), tracked := s.tracked + multiset{e})
    case Swap =>
      s' == s.(cache := map[], flushes := s.flushes +
        [if s.cache == map[] then Committed(map[]) else Inserting(s.cache, multiset{}, s.cache)])
    case Insert(i, t) =>
      && i < |s.flushes| && s.flushes[i].Inserting? && t in s.flushes[i].left && s.flushes[i].left[t] != []
      && var f := s.flushes[i];
         s' == s.(flushes := s.flushes[i := Inserting(f.batch, f.tx + multiset{f.left[t][0]}, f.left[t := f.left[t][1..]])])
    case Fail(i) =>
      && i < |s.flushes| && s.flushes[i].Inserting?
      && s' == s.(flushes := s.flushes[i := RolledBack(s.flushes[i].batch)], failed := s.failed + {i})
    case Commit(i) =>
      && i < |s.flushes| && s.flushes[i].Inserting? && (forall t | t in s.flushes[i].left :: s.flushes[i].left[t] == [])
      && s' == s.(flushes := s.flushes[i := Committed(s.flushes[i].batch)], table := s.table + s.flushes[i].tx)
  }

  ghost predicate Moves(s: State, s': State) {
    exists step :: Next(s, s', step)
  }

  ghost predicate IsRun(run: seq<State>) {
    && run != []
    && if |run| == 1 then run[0] == State(map[], [], multiset{}, multiset{}, {})
       else IsRun(run[..|run| - 1]) && Moves(run[|run| - 2], run[|run| - 1])
  }

  // ------------------------------------------------------------- accounting

  datatype Kind = InFlight | Stored | Lost

  function Weight(f: Flush, kind: Kind, e: Event): nat {
    match (f, kind)
    case (Inserting(b, _, _), InFlight) => Count(b, e)
    case (Committed(b), Stored) => Count(b, e)
    case (RolledBack(b), Lost) => Count(b, e)
    case _ => 0
  }

  /** Occurrences over all flushes of a kind. */
  function Total(flushes: seq<Flush>, kind: Kind, e: Event): nat {
    if flushes == [] then 0
    else Total(flushes[..|flushes| - 1], kind, e) + Weight(flushes[|flushes| - 1], kind, e)
  }

  lemma {:induction false} TotalSnoc(fs: seq<Flush>, f: Flush, kind: Kind, e: Event)
    ensures Total(fs + [f], kind, e) == Total(fs, kind, e) + Weight(f, kind, e)
  {
    assert (fs + [f])[..|fs|] == fs;
  }

  lemma {:induction false} TotalUpdate(fs: seq<Flush>, i: nat, f: Flush, kind: Kind, e: Event)
    requires i < |fs|
    ensures Total(fs[i := f], kind, e) + Weight(fs[i], kind, e) == Total(fs, kind, e) + Weight(f, kind, e)
  {
    var front, last := fs[..|fs| - 1], fs[|fs| - 1];
    assert fs == front + [last];
    if i == |fs| - 1 {
      assert fs[i := f] == front + [f];
      TotalSnoc(front, f, kind, e);
    } else {
      assert fs[i := f] == front[i := f] + [last];
      TotalSnoc(front[i := f], last, kind, e);
      TotalUpdate(front, i, f, kind, e);
    }
  }

  // --------------------------------------------------------------- invariant

  ghost predicate FlushInv(f: Flush) {
    f.Inserting? ==> Filed(f.left) && forall e :: f.tx[e] + Count(f.left, e) == Count(f.batch, e)
  }

  ghost predicate Balanced(s: State, e: Event) {
    && s.tracked[e] == Count(s.cache, e) + Total(s.flushes, InFlight, e) + s.table[e] + Total(s.flushes, Lost, e)
    && s.table[e] == Total(s.flushes, Stored, e)
  }

  ghost predicate Inv(s: State) {
    && Filed(s.cache) && (forall f | f in s.flushes :: FlushInv(f)) && (forall e :: Balanced(s, e))
    && forall i | 0 <= i < |s.flushes| :: s.flushes[i].RolledBack? ==> i in s.failed
  }

  lemma {:induction false} AppendCounts(b: Batch, e: Event, x: Event)
    requires Filed(b)
    ensures Filed(Append(b, e)) && Count(Append(b, e), x) == Count(b, x) + if x == e then 1 else 0
  {
  }

  lemma {:induction false} InsertCounts(f: Flush, t: int, x: Event)
    requires f.Inserting? && FlushInv(f) && t in f.left && f.left[t] != []
    ensures var e := f.left[t][0]; var left := f.left[t := f.left[t][1..]];
      Filed(left) && (f.tx + multiset{e})[x] + Count(left, x) == Count(f.batch, x)
  {
    var q := f.left[t];
    assert q == [q[0]] + q[1..];
    assert multiset(q) == multiset{q[0]} + multiset(q[1..]);
    assert q[0] in q && forall y | y in q[1..] :: y in q;
  }

  lemma {:induction false} InsertKeeps(s: State, s': State, i: nat, t: int)
    requires Inv(s) && Next(s, s', Insert(i, t))
    ensures Inv(s')
  {
    var f := s.flushes[i];
    assert f in s.flushes;
    var g := s'.flushes[i];
    forall x ensures g.tx[x] + Count(g.left, x) == Count(g.batch, x) {
      InsertCounts(f, t, x);
    }
    InsertCounts(f, t, f.left[t][0]);
    forall e ensures Balanced(s', e) {
      assert Balanced(s, e);
      TotalUpdate(s.flushes, i, g, InFlight, e);
      TotalUpdate(s.flushes, i, g, Stored, e);
      TotalUpdate(s.flushes, i, g, Lost, e);
    }
    assert forall h | h in s'.flushes :: h in s.flushes || h == g;
  }

  lemma {:induction false} EndBalanced(s: State, s': State, step: Step, e: Event)
    requires Inv(s) && Next(s, s', step) && (step.Fail? || step.Commit?)
    ensures Balanced(s', e)
  {
    var f, g := s.flushes[step.i], s'.flushes[step.i];
    assert f in s.flushes && Balanced(s, e);
    assert f.tx[e] + Count(f.left, e) == Count(f.batch, e);
    TotalUpdate(s.flushes, step.i, g, InFlight, e);
    TotalUpdate(s.flushes, step.i, g, Stored, e);
    TotalUpdate(s.flushes, step.i, g, Lost, e);
  }

  lemma {:induction false} EndKeeps(s: State, s': State, step: Step)
    requires Inv(s) && Next(s, s', step) && (step.Fail? || step.Commit?)
    ensures Inv(s')
  {
    forall e ensures Balanced(s', e) {
      EndBalanced(s, s', step, e);
    }
    assert forall h | h in s'.flushes :: h in s.flushes || h == s'.flushes[step.i];
  }

  lemma {:induction false} TotalsSnoc(fs: seq<Flush>, g: Flush, e: Event)
    ensures Total(fs + [g], InFlight, e) == Total(fs, InFlight, e) + Weight(g, InFlight, e)
    ensures Total(fs + [g], Stored, e) == Total(fs, Stored, e) + Weight(g, Stored, e)
    ensures Total(fs + [g], Lost, e) == Total(fs, Lost, e) + Weight(g, Lost, e)
  {
    TotalSnoc(fs, g, InFlight, e);
    TotalSnoc(fs, g, Stored, e);
    TotalSnoc(fs, g, Lost, e);
  }

  lemma {:induction false} SwapWeights(g: Flush, cache: Batch, e: Event)
    requires g == if cache == map[] then Committed(map[]) else Inserting(cache, multiset{}, cache)
    ensures Weight(g, InFlight, e) == Count(cache, e) && Weight(g, Stored, e) == Weight(g, Lost, e) == 0
  {
  }

  lemma {:induction false} SwapBalanced(s: State, s': State, e: Event)
    requires Balanced(s, e) && Next(s, s', Swap)
    ensures Balanced(s', e)
  {
    var g := if s.cache == map[] then Committed(map[]) else Inserting(s.cache, multiset{}, s.cache);
    SwapWeights(g, s.cache, e);
    TotalsSnoc(s.flushes, g, e);
    assert Count(map[], e) == 0;
  }

  lemma {:induction false} SwapKeeps(s: State, s': State)
    requires Inv(s) && Next(s, s', Swap)
    ensures Inv(s')
  {
    var g := s'.flushes[|s.flushes|];
    assert FlushInv(g);
    assert forall h | h in s'.flushes :: h in s.flushes || h == g;
    forall e ensures Balanced(s', e) {
      assert Balanced(s, e);
      SwapBalanced(s, s', e);
    }
  }

  lemma {:induction false} TrackKeeps(s: State, s': State, e: Event)
    requires Inv(s) && Next(s, s', Track(e))
    ensures Inv(s')
  {
    AppendCounts(s.cache, e, e);
    forall x ensures Balanced(s', x) {
      assert Balanced(s, x);
      AppendCounts(s.cache, e, x);
    }
  }

  lemma {:induction false} RunKeeps(run: seq<State>)
    requires IsRun(run)
    ensures Inv(run[|run| - 1])
  {
    if |run| > 1 {
      var front := run[..|run| - 1];
      RunKeeps(front);
      var s, s' := front[|front| - 1], run[|run| - 1];
      var step :| Next(s, s', step);
      match step {
        case Track(e) => TrackKeeps(s, s', e);
        case Swap => SwapKeeps(s, s');
        case Insert(i, t) => InsertKeeps(s, s', i, t);
        case Fail(_) => EndKeeps(s, s', step);
        case Commit(_) => EndKeeps(s, s', step);
      }
    }
  }

  // ---------------------------------------------------------------- theorems

  /** In every interleaving, every event is accounted for: as often as it was
      tracked it is in the cache, in a running flush, in the table, or in a batch
      that was rolled back. The table holds exactly the batches of committed
      flushes, each one whole. */
  lemma {:induction false} NothingLostOrInvented(run: seq<State>, s: State, e: Event)
    requires IsRun(run) && s == run[|run| - 1]
    ensures s.tracked[e] == Count(s.cache, e) + Total(s.flushes, InFlight, e) + s.table[e] + Total(s.flushes, Lost, e)
    ensures s.table[e] == Total(s.flushes, Stored, e)
  {
    RunKeeps(run);
    assert Balanced(s, e);
  }

  lemma {:induction false} TotalAtLeast(fs: seq<Flush>, i: nat, kind: Kind, e: Event)
    requires i < |fs|
    ensures Total(fs, kind, e) >= Weight(fs[i], kind, e)
  {
    if i < |fs| - 1 {
      TotalAtLeast(fs[..|fs| - 1], i, kind, e);
    }
  }

  /** A flush none of whose database calls failed, once it is over, has stored
      every event of its batch; */
  lemma {:induction false} FlushStoresItsBatch(run: seq<State>, s: State, i: nat)
    requires IsRun(run) && s == run[|run| - 1] && i < |s.flushes| && i !in s.failed && !s.flushes[i].Inserting?
    ensures s.flushes[i].Committed? && forall e :: s.table[e] >= Count(s.flushes[i].batch, e)
  {
    RunKeeps(run);
    forall e ensures s.table[e] >= Count(s.flushes[i].batch, e) {
      assert Balanced(s, e);
      TotalAtLeast(s.flushes, i, Stored, e);
    }
  }

  /** and until then it can go on: insert an event still left, or commit. */
  lemma {:induction false} FlushGoesOn(s: State, i: nat) returns (s': State, step: Step)
    requires i < |s.flushes| && s.flushes[i].Inserting?
    ensures Next(s, s', step)
    ensures if forall t | t in s.flushes[i].left :: s.flushes[i].left[t] == []
            then step == Commit(i) else step.Insert? && step.i == i
  {
    var f := s.flushes[i];
    if t :| t in f.left && f.left[t] != [] {
      step := Insert(i, t);
      s' := s.(flushes := s.flushes[i := Inserting(f.batch, f.tx + multiset{f.left[t][0]}, f.left[t := f.left[t][1..]])]);
    } else {
      step := Commit(i);
      s' := s.(flushes := s.flushes[i := Committed(f.batch)], table := s.table + f.tx);
    }
  }

  /** Hence an event tracked once is never stored twice. */
  lemma {:induction false} StoredAtMostOnce(run: seq<State>, s: State, e: Event)
    requires IsRun(run) && s == run[|run| - 1] && s.tracked[e] <= 1
    ensures s.table[e] <= 1
  {
    NothingLostOrInvented(run, s, e);
  }
}
