/** Streaming a proxied blob to the client while caching it
    (`internal/proxy/registry_proxy.go`): the client behind a TeeReader, an
    `io.Pipe`, and the goroutine around `cacheBlob` that drains what is left. */
module ProxyPipe {
  import opened Wrappers

  type Bytes = seq<char>

  // -------------------------------------------------------------- the system

  /** The client between calls, inside a tee'd pipe write, or after `Close`. */
  datatype Client = Reading | Writing(rest: Bytes) | Closed

  /** The goroutine: the stages of `cacheBlob`, then the deferred drain. */
  datatype Cacher = Stat | Open | Copy | Holding(chunk: Bytes) | Recording | Drain | Done

  /** What the run meets: the upstream body, whether the blob is stored already,
      whether a writer can be opened, the number of bytes after which it fails if
      it does, and whether the database takes the record. */
  datatype World = World(body: Bytes, present: bool, opens: bool, failsAt: Option<nat>, records: bool)

  /** `pos` bytes of the body have been read by the client; `written` have been
      accepted by the storage writer; `recorded` is what PutBlob vouched for. */
  datatype State = State(
    world: World,
    pos: nat,
    client: Client,
    sawEof: bool,
    cacher: Cacher,
    readEndClosed: bool,
    written: Bytes,
    recorded: Option<Bytes>)

  datatype Step =
    | ClientRead(n: nat)
    | ClientEof
    | ClientError
    | ClientWriteDone
    | ClientWriteFails
    | ClientClose
    | StatResult
    | OpenResult
    | PipeRead(n: nat)
    | PipeEof
    | StoreChunk
    | StoreFails(k: nat)
    | PutBlob
    | DrainRead(n: nat)
    | DrainEof

  predicate ClientStep(step: Step) {
    step.ClientRead? || step.ClientEof? || step.ClientError? || step.ClientWriteDone? || step.ClientWriteFails? || step.ClientClose?
  }

  predicate Next(s: State, s': State, step: Step) {
    if ClientStep(step) then ClientNext(s, s', step) else CacherNext(s, s', step)
  }

  /** `tee.Read` reads upstream, then writes what it got to the pipe and waits
      until it is consumed or the read end is closed. */
  predicate ClientNext(s: State, s': State, step: Step)
    requires ClientStep(step)
  {
    match step
    case ClientRead(n) =>
      && s.client.Reading? && 0 < n && s.pos + n <= |s.world.body|
      && s' == s.(pos := s.pos + n, client := Writing(s.world.body[s.pos..s.pos + n]))
    case ClientEof => s.client.Reading? && s.pos == |s.world.body| && s' == s.(sawEof := true)
    case ClientError => s.client.Reading? && s' == s
    case ClientWriteDone => s.client == Writing([]) && s' == s.(client := Reading)
    case ClientWriteFails => s.client.Writing? && s.readEndClosed && s' == s.(client := Reading)
    case ClientClose => s.client.Reading? && s' == s.(client := Closed)
  }

  /** The pipe gives the reader bytes while a write is pending, and EOF once the
      client has closed the write end. */
  predicate CacherNext(s: State, s': State, step: Step)
    requires !ClientStep(step)
  {
    match step
    case StatResult =>
      s.cacher.Stat? && s' == s.(cacher := if s.world.present then Drain else Open)
    case OpenResult =>
      s.cacher.Open? && s' == s.(cacher := if s.world.opens then Copy else Drain)
    case PipeRead(n) =>
      && s.cacher.Copy? && s.client.Writing? && 0 < n <= |s.client.rest|
      && s' == s.(cacher := Holding(s.client.rest[..n]), client := Writing(s.client.rest[n..]))
    case PipeEof =>
      s.cacher.Copy? && s.client.Closed? && s' == s.(cacher := Recording)
    case StoreChunk =>
      && s.cacher.Holding?
      && (s.world.failsAt.Some? ==> |s.written| + |s.cacher.chunk| <= s.world.failsAt.value)
      && s' == s.(written := s.written + s.cacher.chunk, cacher := Copy)
    case StoreFails(k) =>
      && s.cacher.Holding? && k <= |s.cacher.chunk| && s.world.failsAt == Some(|s.written| + k)
      && s' == s.(written := s.written + s.cacher.chunk[..k], cacher := Drain)
    case PutBlob =>
      s.cacher.Recording? && s' == s.(recorded := if s.world.records then Some(s.written) else None, cacher := Drain)
    case DrainRead(n) =>
      && s.cacher.Drain? && s.client.Writing? && 0 < n <= |s.client.rest|
      && s' == s.(client := Writing(s.client.rest[n..]))
    case DrainEof =>
      s.cacher.Drain? && s.client.Closed? && s' == s.(cacher := Done, readEndClosed := true)
  }

  ghost predicate Moves(s: State, s': State) {
    exists step :: Next(s, s', step)
  }

  function Start(world: World): State {
    State(world, 0, Reading, false, Stat, false, [], None)
  }

  ghost predicate IsRun(run: seq<State>) {
    && run != []
    && if |run| == 1 then run[0] == Start(run[0].world)
       else IsRun(run[..|run| - 1]) && Moves(run[|run| - 2], run[|run| - 1])
  }

  // --------------------------------------------------------------- invariant

  /** Bytes that have gone through the pipe. */
  function Passed(s: State): int {
    s.pos - if s.client.Writing? then |s.client.rest| else 0
  }

  ghost predicate Inv(s: State) {
    && 0 <= Passed(s) <= s.pos <= |s.world.body|
    && (s.client.Writing? ==> s.world.body[Passed(s)..s.pos] == s.client.rest)
    && (s.sawEof ==> s.pos == |s.world.body|)
    && (s.readEndClosed <==> s.cacher.Done?)
    && (s.cacher.Recording? || s.cacher.Done? ==> s.client.Closed?)
    && CacherInv(s)
  }

  predicate Within(s: State) {
    s.world.failsAt.Some? ==> |s.written| <= s.world.failsAt.value
  }

  predicate Caching(w: World) {
    !w.present && w.opens
  }

  ghost predicate CacherInv(s: State)
    requires 0 <= Passed(s) <= s.pos <= |s.world.body|
  {
    match s.cacher
    case Stat => Passed(s) == 0 && s.written == [] && s.recorded == None
    case Open => Passed(s) == 0 && s.written == [] && s.recorded == None && !s.world.present
    case Copy => Caching(s.world) && Within(s) && s.written == s.world.body[..Passed(s)] && s.recorded == None
    case Holding(chunk) =>
      Caching(s.world) && Within(s) && s.written + chunk == s.world.body[..Passed(s)] && s.recorded == None
    case Recording => Caching(s.world) && s.written == s.world.body[..s.pos] && s.recorded == None
    case _ => Result(s)
  }

  /** How caching ended: not at all; with a failed write; or with everything the
      client had read when it closed, recorded if the database takes it. */
  predicate Result(s: State)
    requires s.pos <= |s.world.body|
  {
    if !Caching(s.world) then s.written == [] && s.recorded == None
    else
      || (s.world.failsAt == Some(|s.written|) && s.written <= s.world.body && s.recorded == None)
      || (&& s.client.Closed? && s.written == s.world.body[..s.pos]
          && s.recorded == if s.world.records then Some(s.written) else None)
  }

  lemma {:induction false} ClientKeeps(s: State, s': State, step: Step)
    requires Inv(s) && ClientStep(step) && ClientNext(s, s', step)
    ensures Inv(s')
  {
    if step.ClientRead? {
      assert Passed(s') == s.pos == Passed(s);
    }
  }

  lemma {:induction false} ConsumerKeeps(s: State, s': State, step: Step)
    requires Inv(s) && (step.PipeRead? || step.DrainRead?) && CacherNext(s, s', step)
    ensures Inv(s')
  {
    TakeChunk(s, step.n);
    assert Passed(s') == Passed(s) + step.n;
  }

  lemma {:induction false} StorageKeeps(s: State, s': State, step: Step)
    requires Inv(s) && (step.StoreChunk? || step.StoreFails?) && CacherNext(s, s', step)
    ensures Inv(s')
  {
    var c := s.cacher.chunk;
    assert Passed(s') == Passed(s);
    if step.StoreFails? {
      assert s'.written == (s.written + c)[..|s.written| + step.k];
    }
  }

  lemma {:induction false} StageKeeps(s: State, s': State, step: Step)
    requires Inv(s) && !ClientStep(step) && CacherNext(s, s', step)
    requires !step.PipeRead? && !step.DrainRead? && !step.StoreChunk? && !step.StoreFails?
    ensures Inv(s')
  {
    assert Passed(s') == Passed(s);
  }

  lemma {:induction false} StepKeeps(s: State, s': State, step: Step)
    requires Inv(s) && Next(s, s', step)
    ensures Inv(s') && s'.world == s.world
  {
    if ClientStep(step) {
      ClientKeeps(s, s', step);
    } else if step.PipeRead? || step.DrainRead? {
      ConsumerKeeps(s, s', step);
    } else if step.StoreChunk? || step.StoreFails? {
      StorageKeeps(s, s', step);
    } else {
      StageKeeps(s, s', step);
    }
  }

  lemma {:induction false} TakeChunk(s: State, n: nat)
    requires Inv(s) && s.client.Writing? && n <= |s.client.rest|
    ensures var p := Passed(s);
      && s.world.body[..p + n] == s.world.body[..p] + s.client.rest[..n]
      && s.world.body[p + n..s.pos] == s.client.rest[n..]
  {
  }

  lemma {:induction false} RunKeeps(run: seq<State>)
    requires IsRun(run)
    ensures Inv(run[|run| - 1]) && run[|run| - 1].world == run[0].world
  {
    if |run| > 1 {
      var front := run[..|run| - 1];
      RunKeeps(front);
      var step :| Next(front[|front| - 1], run[|run| - 1], step);
      StepKeeps(front[|front| - 1], run[|run| - 1], step);
    }
  }

  // ---------------------------------------------------------------- theorems

  /** The storage writer takes the whole body. */
  predicate Fits(w: World) {
    w.failsAt.None? || w.failsAt.value > |w.body|
  }

  /** In every interleaving the cached bytes are a prefix of the body; once the
      copy is over they are the whole body if the client read to EOF, the blob was
      not stored already, and storage neither failed to open nor to take it. */
  lemma {:induction false} CachedBytes(run: seq<State>, s: State)
    requires IsRun(run) && s == run[|run| - 1]
    ensures s.written <= s.world.body
    ensures (&& s.sawEof && !s.world.present && s.world.opens && Fits(s.world)
             && (s.cacher.Recording? || s.cacher.Drain? || s.cacher.Done?)) ==> s.written == s.world.body
  {
    RunKeeps(run);
    if s.cacher.Holding? {
      assert s.written == (s.written + s.cacher.chunk)[..|s.written|];
    }
  }

  /** What is recorded once the goroutine is done: what the client had read, if
      the blob was not stored already and neither storage nor database fail;
      nothing if it was, no writer opens, or the database fails. */
  lemma {:induction false} RecordedAtTheEnd(run: seq<State>, s: State)
    requires IsRun(run) && s == run[|run| - 1] && s.cacher.Done?
    ensures s.pos <= |s.world.body|
    ensures !s.world.present && s.world.opens && Fits(s.world) && s.world.records ==> s.recorded == Some(s.world.body[..s.pos])
    ensures s.world.present || !s.world.opens || !s.world.records ==> s.recorded == None
  {
    RunKeeps(run);
  }

  /** Steps left before the goroutine reads from the pipe. */
  function Rank(c: Cacher): nat {
    match c
    case Stat => 4
    case Open => 3
    case Holding(_) => 2
    case _ => 1
  }

  /** Some goroutine step is possible. */
  ghost predicate CanMove(s: State) {
    exists s', step :: CacherMoves(s, s', step)
  }

  predicate CacherMoves(s: State, s': State, step: Step) {
    !ClientStep(step) && CacherNext(s, s', step)
  }

  /** Bytes leave the pending write, or the goroutine is closer to taking some. */
  predicate Progress(s: State, s': State) {
    && s.client.Writing? && s'.client.Writing?
    && (|s'.client.rest| < |s.client.rest| || (s'.client == s.client && Rank(s'.cacher) < Rank(s.cacher)))
  }

  /** A client blocked in a pipe write always has a consumer: the goroutine is
      alive and can move, and each of its moves either takes bytes off the
      pending write or brings it closer to doing so. */
  lemma {:induction false} BlockedClientHasConsumer(run: seq<State>, s: State)
    requires IsRun(run) && s == run[|run| - 1] && s.client.Writing? && s.client.rest != []
    ensures !s.readEndClosed && CanMove(s)
    ensures forall s', step | CacherMoves(s, s', step) :: Progress(s, s')
  {
    RunKeeps(run);
    ConsumerReady(s);
  }

  lemma {:induction false} ConsumerReady(s: State)
    requires Inv(s) && s.client.Writing? && s.client.rest != []
    ensures !s.readEndClosed && CanMove(s)
    ensures forall s', step | CacherMoves(s, s', step) :: Progress(s, s')
  {
    var rest := s.client.rest;
    match s.cacher {
      case Stat => assert CacherMoves(s, s.(cacher := if s.world.present then Drain else Open), StatResult);
      case Open => assert CacherMoves(s, s.(cacher := if s.world.opens then Copy else Drain), OpenResult);
      case Copy => assert CacherMoves(s, s.(cacher := Holding(rest[..1]), client := Writing(rest[1..])), PipeRead(1));
      case Holding(chunk) => HeldMoves(s, chunk);
      case Drain => assert CacherMoves(s, s.(client := Writing(rest[1..])), DrainRead(1));
    }
  }

  /** A chunk is stored, or fails where storage fails. */
  lemma {:induction false} HeldMoves(s: State, chunk: Bytes)
    requires s.cacher == Holding(chunk) && (s.world.failsAt.Some? ==> |s.written| <= s.world.failsAt.value)
    ensures CanMove(s)
  {
    if s.world.failsAt.Some? && |s.written| + |chunk| > s.world.failsAt.value {
      var k := s.world.failsAt.value - |s.written|;
      assert CacherMoves(s, s.(written := s.written + chunk[..k], cacher := Drain), StoreFails(k));
    } else {
      assert CacherMoves(s, s.(written := s.written + chunk, cacher := Copy), StoreChunk);
    }
  }

  /** What gets recorded as the blob is exactly what the client had read when it
      closed, so it is the blob if and only if the client had read all of it. */
  lemma {:induction false} RecordedIffRead(run: seq<State>, s: State)
    requires IsRun(run) && s == run[|run| - 1] && s.recorded.Some?
    ensures s.pos <= |s.world.body| && s.recorded.value == s.world.body[..s.pos]
    ensures s.recorded.value == s.world.body <==> s.pos == |s.world.body|
  {
    RunKeeps(run);
    assert s.pos == |s.world.body| ==> s.world.body[..s.pos] == s.world.body;
  }

  /** A client that closes at once leaves an empty blob recorded as complete. */
  lemma {:induction false} TruncatedBlobRecorded(body: Bytes) returns (run: seq<State>)
    ensures IsRun(run) && run[0].world.body == body && run[|run| - 1].recorded == Some([])
  {
    var s0 := Start(World(body, false, true, None, true));
    var s1 := s0.(client := Closed);
    var s2 := s1.(cacher := Open);
    var s3 := s2.(cacher := Copy);
    var s4 := s3.(cacher := Recording);
    var s5 := s4.(cacher := Drain, recorded := Some([]));
    assert Next(s0, s1, ClientClose) && Next(s1, s2, StatResult) && Next(s2, s3, OpenResult);
    assert Next(s3, s4, PipeEof) && Next(s4, s5, PutBlob);
    run := [s0];
    run := AddStep(run, s1, ClientClose);
    run := AddStep(run, s2, StatResult);
    run := AddStep(run, s3, OpenResult);
    run := AddStep(run, s4, PipeEof);
    run := AddStep(run, s5, PutBlob);
  }

  lemma {:induction false} AddStep(run: seq<State>, s': State, step: Step) returns (next: seq<State>)
    requires IsRun(run) && Next(run[|run| - 1], s', step)
    ensures IsRun(next) && next[|next| - 1] == s' && next[0].world == run[0].world
  {
    next := run + [s'];
    assert next[..|run|] == run;
    assert Moves(run[|run| - 1], s');
  }
}
