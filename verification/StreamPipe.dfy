/** `NewStreamWriter` (`internal/storage/stream.go`): an upload function reading
    a prefix and then a pipe in its own goroutine, a writer, and any number of
    `Close` calls guarded by a sync.Once. */
module StreamPipe {
  import opened Wrappers

  type Bytes = seq<char>

  type Error = Option<string>

  // -------------------------------------------------------------- the system

  /** The goroutine: the upload itself, then closing prefix and pipe, then the
      one buffered send on `done`. */
  datatype Uploader =
    | Running
    | Returned
    | PrefixClosed(err: Error)
    | ReaderClosed(err: Error)
    | Sent(err: Error)

  /** A `Close` call: at the Once, inside it, waiting for `done`, answered. */
  datatype Closer = Entering | InOnce | Waiting | Finished(err: Error)

  datatype Once = NotRun | RunBy(id: nat) | Ran

  /** A `Write` in progress: n bytes of p taken; `met` once a read has met it. */
  datatype Write = Write(p: Bytes, n: nat, met: bool)

  /** A `Write` that returned n and, unless ok, an error. */
  datatype Call = Call(p: Bytes, n: nat, ok: bool)

  /** The bytes on their way; `seen`, the buffers of the writes in the order they
      were started, and the calls that returned, are history. */
  datatype Data = Data(
    prefix: Option<Bytes>,
    read: nat,                 // bytes of the prefix read so far
    seen: Bytes,
    sawEof: bool,
    pending: Option<Write>,
    started: seq<Bytes>,
    calls: seq<Call>)

  /** `uploadErr` is what the upload function is going to return, `prefixErr` what
      closing the prefix is going to return. */
  datatype State = State(
    data: Data,
    uploader: Uploader,
    uploadErr: Error,
    prefixErr: Error,
    prefixClosed: bool,
    writeEndClosed: bool,
    readEndClosed: bool,
    done: Option<Error>,
    once: Once,
    closeErr: Error,
    closers: map<nat, Closer>)

  function Prefix(d: Data): Bytes {
    if d.prefix.Some? then d.prefix.value else []
  }

  datatype ReadStep =
    | ReadPrefix(n: nat)
    | ReadPipe(n: nat)
    | ReadEof

  datatype WriteStep =
    | WriteStart(p: Bytes)
    | WriteDone
    | WriteFails
    | WriteRefused(p: Bytes)

  datatype UploadStep =
    | UploadReturns
    | ClosePrefix
    | CloseReader
    | SendDone

  datatype CloseStep =
    | CallClose
    | EnterOnce
    | CloseWriter
    | ReceiveDone
    | SkipOnce

  datatype Step =
    | Reading(r: ReadStep)
    | Writing(w: WriteStep)
    | Uploading(u: UploadStep)
    | Closing(c: nat, k: CloseStep)

  predicate Next(s: State, s': State, step: Step) {
    match step
    case Reading(r) =>
      && s.uploader.Running? && ReadNext(s.data, s'.data, s.writeEndClosed, r)
      && s' == s.(data := s'.data)
    case Writing(w) =>
      && WriteNext(s.data, s'.data, s.readEndClosed || s.writeEndClosed, w)
      && s' == s.(data := s'.data)
    case Uploading(u) => UploadNext(s, s', u)
    case Closing(c, k) => CloseNext(s, s', c, k)
  }

  /** The upload function reading io.MultiReader(prefix, pipe). */
  predicate ReadNext(d: Data, d': Data, writeEndClosed: bool, r: ReadStep) {
    match r
    case ReadPrefix(n) =>
      && 0 < n && d.read + n <= |Prefix(d)|
      && d' == d.(read := d.read + n, seen := d.seen + Prefix(d)[d.read..d.read + n])
    case ReadPipe(n) =>
      && d.read == |Prefix(d)| && !d.sawEof
      && d.pending.Some? && d.pending.value.n + n <= |d.pending.value.p|
      && var w := d.pending.value;
         d' == d.(seen := d.seen + w.p[w.n..w.n + n], pending := Some(Write(w.p, w.n + n, true)))
    case ReadEof =>
      d.read == |Prefix(d)| && writeEndClosed && d' == d.(sawEof := true)
  }

  /** `io.Pipe`: a Write is offered until all of it is taken, also an empty one
      once; a closed pipe ends it, or refuses it at once, taking nothing. */
  predicate WriteNext(d: Data, d': Data, closed: bool, w: WriteStep) {
    match w
    case WriteStart(p) => d.pending.None? && d' == d.(pending := Some(Write(p, 0, false)), started := d.started + [p])
    case WriteDone =>
      && d.pending.Some? && d.pending.value.met && d.pending.value.n == |d.pending.value.p|
      && d' == d.(pending := None, calls := d.calls + [Call(d.pending.value.p, d.pending.value.n, true)])
    case WriteFails =>
      && d.pending.Some? && !(d.pending.value.met && d.pending.value.n == |d.pending.value.p|) && closed
      && d' == d.(pending := None, calls := d.calls + [Call(d.pending.value.p, d.pending.value.n, false)])
    case WriteRefused(p) =>
      closed && d' == d
  }

  /** The goroutine once the upload function returns. */
  predicate UploadNext(s: State, s': State, u: UploadStep) {
    match u
    case UploadReturns => s.uploader.Running? && s' == s.(uploader := Returned)
    case ClosePrefix =>
      && s.uploader.Returned?
      && s' == if s.data.prefix.None? then s.(uploader := PrefixClosed(s.uploadErr))
               else s.(prefixClosed := true,
                       uploader := PrefixClosed(if s.uploadErr.None? then s.prefixErr else s.uploadErr))
    case CloseReader =>
      s.uploader.PrefixClosed? && s' == s.(uploader := ReaderClosed(s.uploader.err), readEndClosed := true)
    case SendDone =>
      s.uploader.ReaderClosed? && s.done.None? && s' == s.(uploader := Sent(s.uploader.err), done := Some(s.uploader.err))
  }

  predicate CloseNext(s: State, s': State, c: nat, k: CloseStep) {
    match k
    case CallClose => c !in s.closers && s' == s.(closers := s.closers[c := Entering])
    case EnterOnce =>
      && c in s.closers && s.closers[c].Entering? && s.once.NotRun?
      && s' == s.(once := RunBy(c), closers := s.closers[c := InOnce])
    case CloseWriter =>
      && c in s.closers && s.closers[c].InOnce?
      && s' == s.(writeEndClosed := true, closers := s.closers[c := Waiting])
    case ReceiveDone =>
      && c in s.closers && s.closers[c].Waiting? && s.done.Some?
      && s' == s.(done := None, closeErr := s.done.value, once := Ran, closers := s.closers[c := Finished(s.done.value)])
    case SkipOnce =>
      && c in s.closers && s.closers[c].Entering? && s.once.Ran?
      && s' == s.(closers := s.closers[c := Finished(s.closeErr)])
  }

  ghost predicate Moves(s: State, s': State) {
    exists step :: Next(s, s', step)
  }

  function Start(prefix: Option<Bytes>, uploadErr: Error, prefixErr: Error): State {
    State(Data(prefix, 0, [], false, None, [], []), Running, uploadErr, prefixErr, false, false, false, None, NotRun, None, map[])
  }

  ghost predicate IsRun(run: seq<State>) {
    && run != []
    && if |run| == 1 then run[0] == Start(run[0].data.prefix, run[0].uploadErr, run[0].prefixErr)
       else IsRun(run[..|run| - 1]) && Moves(run[|run| - 2], run[|run| - 1])
  }

  // --------------------------------------------------------------- invariant

  /** Upload's error, else the error of closing the prefix, if there is one. */
  function Verdict(s: State): Error {
    if s.uploadErr.Some? then s.uploadErr else if s.data.prefix.Some? then s.prefixErr else None
  }

  /** Returned counts are within the buffer, and complete without an error. */
  predicate Counted(calls: seq<Call>) {
    forall c | c in calls :: c.n <= |c.p| && (c.ok ==> c.n == |c.p|)
  }

  /** What the calls that returned say was written, in order. */
  function Accepted(calls: seq<Call>): Bytes
    requires Counted(calls)
  {
    if calls == [] then []
    else
      var last := calls[|calls| - 1];
      assert last in calls;
      Accepted(calls[..|calls| - 1]) + last.p[..last.n]
  }

  predicate Countable(d: Data) {
    Counted(d.calls) && (d.pending.Some? ==> d.pending.value.n <= |d.pending.value.p|)
  }

  /** ... and what has been taken of one still in progress. */
  function Taken(d: Data): Bytes
    requires Countable(d)
  {
    Accepted(d.calls) + if d.pending.Some? then d.pending.value.p[..d.pending.value.n] else []
  }

  /** Calls return in the order they were started, with their own buffers. */
  predicate AsStarted(d: Data) {
    && |d.started| == |d.calls| + (if d.pending.Some? then 1 else 0)
    && (forall i | 0 <= i < |d.calls| :: d.calls[i].p == d.started[i])
    && (d.pending.Some? ==> d.pending.value.p == d.started[|d.calls|])
  }

  ghost predicate DataInv(d: Data) {
    && d.read <= |Prefix(d)| && Countable(d) && AsStarted(d)
    && d.seen == Prefix(d)[..d.read] + Taken(d)
    && (Taken(d) != [] || d.sawEof ==> d.read == |Prefix(d)|)
  }

  ghost predicate UploadInv(s: State) {
    && (s.uploader.PrefixClosed? || s.uploader.ReaderClosed? || s.uploader.Sent? ==>
          s.uploader.err == Verdict(s) && (s.data.prefix.Some? ==> s.prefixClosed))
    && (s.prefixClosed ==> !s.uploader.Running? && !s.uploader.Returned?)
    && (s.done.Some? ==> s.uploader == Sent(s.done.value))
    && (s.uploader.Sent? && s.done.None? ==> s.once.Ran?)
    && (s.once.Ran? ==> s.uploader == Sent(s.closeErr))
  }

  ghost predicate CloseInv(s: State) {
    && (forall c | c in s.closers && (s.closers[c].InOnce? || s.closers[c].Waiting?) :: s.once == RunBy(c))
    && (s.once.RunBy? ==> s.once.id in s.closers && (s.closers[s.once.id].InOnce? || s.closers[s.once.id].Waiting?))
    && (forall c | c in s.closers && s.closers[c].Finished? :: s.once.Ran? && s.closers[c].err == s.closeErr)
  }

  ghost predicate Inv(s: State) {
    DataInv(s.data) && UploadInv(s) && CloseInv(s)
  }

  lemma {:induction false} AcceptedSnoc(calls: seq<Call>, c: Call)
    requires Counted(calls) && c.n <= |c.p| && (c.ok ==> c.n == |c.p|)
    ensures Counted(calls + [c]) && Accepted(calls + [c]) == Accepted(calls) + c.p[..c.n]
  {
    assert (calls + [c])[..|calls|] == calls;
  }

  lemma {:induction false} ReadKeeps(d: Data, d': Data, closed: bool, r: ReadStep)
    requires DataInv(d) && ReadNext(d, d', closed, r)
    ensures DataInv(d')
  {
    match r
    case ReadPrefix(n) =>
      assert Prefix(d)[..d.read + n] == Prefix(d)[..d.read] + Prefix(d)[d.read..d.read + n];
      assert Taken(d) == [];
    case ReadPipe(n) => PipeKeeps(d, d', n);
    case ReadEof =>
  }

  lemma {:induction false} Chunk(p: Bytes, k: nat, n: nat, before: Bytes)
    requires k + n <= |p|
    ensures before + p[..k + n] == before + p[..k] + p[k..k + n]
  {
    assert p[..k + n] == p[..k] + p[k..k + n];
  }

  lemma {:induction false} PipeKeeps(d: Data, d': Data, n: nat)
    requires DataInv(d) && ReadNext(d, d', false, ReadPipe(n))
    ensures DataInv(d')
  {
    var w := d.pending.value;
    var chunk := w.p[w.n..w.n + n];
    Chunk(w.p, w.n, n, Accepted(d.calls));
    assert Taken(d') == Taken(d) + chunk;
    Associative(Prefix(d)[..d.read], Taken(d), chunk);
  }

  lemma {:induction false} Associative(a: Bytes, b: Bytes, c: Bytes)
    ensures a + b + c == a + (b + c)
  {
  }

  /** A Write that starts or returns takes no bytes. */
  lemma {:induction false} WriteKeeps(d: Data, d': Data, closed: bool, w: WriteStep)
    requires DataInv(d) && WriteNext(d, d', closed, w)
    ensures DataInv(d')
  {
    match w
    case WriteStart(p) => assert p[..0] == [];
    case WriteRefused(_) =>
    case WriteDone => ReturnKeeps(d, d', true);
    case WriteFails => ReturnKeeps(d, d', false);
  }

  lemma {:induction false} ReturnKeeps(d: Data, d': Data, ok: bool)
    requires DataInv(d) && d.pending.Some? && (ok ==> d.pending.value.n == |d.pending.value.p|)
    requires d' == d.(pending := None, calls := d.calls + [Call(d.pending.value.p, d.pending.value.n, ok)])
    ensures DataInv(d')
  {
    AcceptedSnoc(d.calls, Call(d.pending.value.p, d.pending.value.n, ok));
    assert Accepted(d'.calls) + [] == Accepted(d'.calls);
  }

  lemma {:induction false} UploadKeeps(s: State, s': State, u: UploadStep)
    requires UploadInv(s) && UploadNext(s, s', u)
    ensures UploadInv(s') && s'.data == s.data
    ensures s'.once == s.once && s'.closeErr == s.closeErr && s'.closers == s.closers
  {
  }

  lemma {:induction false} ReceiveKeeps(s: State, s': State, c: nat, k: CloseStep)
    requires UploadInv(s) && CloseInv(s) && CloseNext(s, s', c, k)
    ensures UploadInv(s') && s'.data == s.data
  {
  }

  lemma {:induction false} CloseKeeps(s: State, s': State, c: nat, k: CloseStep)
    requires UploadInv(s) && CloseInv(s) && CloseNext(s, s', c, k)
    ensures CloseInv(s')
  {
  }

  lemma {:induction false} ReadingKeeps(s: State, s': State, r: ReadStep)
    requires Inv(s) && Next(s, s', Reading(r))
    ensures Inv(s')
  {
    ReadKeeps(s.data, s'.data, s.writeEndClosed, r);
  }

  lemma {:induction false} WritingKeeps(s: State, s': State, w: WriteStep)
    requires Inv(s) && Next(s, s', Writing(w))
    ensures Inv(s')
  {
    WriteKeeps(s.data, s'.data, s.readEndClosed || s.writeEndClosed, w);
  }

  lemma {:induction false} StepKeeps(s: State, s': State, step: Step)
    requires Inv(s) && Next(s, s', step)
    ensures Inv(s')
  {
    match step
    case Reading(r) => ReadingKeeps(s, s', r);
    case Writing(w) => WritingKeeps(s, s', w);
    case Uploading(u) => UploadKeeps(s, s', u);
    case Closing(c, k) =>
      ReceiveKeeps(s, s', c, k);
      CloseKeeps(s, s', c, k);
  }

  /** What is given from the start stays. */
  predicate SameWorld(s: State, s': State) {
    s'.uploadErr == s.uploadErr && s'.prefixErr == s.prefixErr && s'.data.prefix == s.data.prefix
  }

  lemma {:induction false} WorldStays(s: State, s': State, step: Step)
    requires Next(s, s', step)
    ensures SameWorld(s, s')
  {
  }

  lemma {:induction false} RunKeeps(run: seq<State>)
    requires IsRun(run)
    ensures Inv(run[|run| - 1])
    ensures SameWorld(run[0], run[|run| - 1])
  {
    if |run| > 1 {
      var front := run[..|run| - 1];
      RunKeeps(front);
      var s, s' := front[|front| - 1], run[|run| - 1];
      var step :| Next(s, s', step);
      StepKeeps(s, s', step);
      WorldStays(s, s', step);
    }
  }

  // ---------------------------------------------------------------- theorems

  /** An upload that reads to EOF has seen the prefix and then, in order, the
      bytes each `Write` reported as written, with the part taken of one still in
      progress; before EOF, a prefix of that. A `Write` that returned no error
      reported all of its buffer. */
  lemma {:induction false} UploadSeesEverything(run: seq<State>, d: Data)
    requires IsRun(run) && d == run[|run| - 1].data
    ensures Countable(d) && AsStarted(d)
    ensures d.sawEof ==> d.seen == Prefix(d) + Taken(d)
    ensures d.seen <= Prefix(d) + Taken(d)
  {
    RunKeeps(run);
    assert d.read == |Prefix(d)| ==> Prefix(d)[..d.read] == Prefix(d);
    if Taken(d) == [] {
      assert d.seen == Prefix(d)[..d.read];
    }
  }

  function Concat(buffers: seq<Bytes>): Bytes {
    if buffers == [] then [] else Concat(buffers[..|buffers| - 1]) + buffers[|buffers| - 1]
  }

  lemma {:induction false} NothingShort(calls: seq<Call>, started: seq<Bytes>)
    requires Counted(calls) && (forall c | c in calls :: c.ok)
    requires |started| == |calls| && forall i | 0 <= i < |calls| :: calls[i].p == started[i]
    ensures Accepted(calls) == Concat(started)
  {
    if calls != [] {
      var n := |calls| - 1;
      assert calls[n] in calls && calls[n].p[..calls[n].n] == calls[n].p;
      NothingShort(calls[..n], started[..n]);
    }
  }

  /** Hence, if no `Write` failed and none is in progress, the upload saw the
      prefix and the buffers of all writes, in the order they were started. */
  lemma {:induction false} WholeUpload(run: seq<State>, d: Data)
    requires IsRun(run) && d == run[|run| - 1].data
    requires d.sawEof && d.pending.None? && forall c | c in d.calls :: c.ok
    ensures d.seen == Prefix(d) + Concat(d.started)
  {
    UploadSeesEverything(run, d);
    NothingShort(d.calls, d.started);
  }

  /** Every `Close` answers with upload's error, else the prefix's, and all of
      them alike; by then the prefix has been closed. */
  lemma {:induction false} ClosesAgree(run: seq<State>, s: State, c: nat, d: nat)
    requires IsRun(run) && s == run[|run| - 1]
    requires c in s.closers && s.closers[c].Finished? && d in s.closers && s.closers[d].Finished?
    ensures s.closers[c].err == s.closers[d].err == Verdict(run[0])
    ensures s.uploader.Sent? && (s.data.prefix.Some? ==> s.prefixClosed)
  {
    RunKeeps(run);
  }

  /** The prefix is closed only after upload has returned. */
  lemma {:induction false} PrefixOutlivesUpload(run: seq<State>, s: State)
    requires IsRun(run) && s == run[|run| - 1] && s.prefixClosed
    ensures !s.uploader.Running?
  {
    RunKeeps(run);
  }

  /** Steps of the goroutine and of the Once still to come. */
  function Left(s: State): nat {
    (match s.uploader case Running => 5 case Returned => 4 case PrefixClosed(_) => 3 case ReaderClosed(_) => 2 case Sent(_) => 1)
    + (match s.once
       case NotRun => 3
       case RunBy(c) => if c in s.closers && s.closers[c].Waiting? then 1 else 2
       case Ran => 0)
  }

  predicate Advances(s: State, s': State, step: Step) {
    Next(s, s', step) && Left(s') < Left(s)
  }

  /** Once upload has returned, a `Close` in progress always completes: until the
      Once has run some step is possible that uses up the remaining work, and
      after that each waiting call answers in one step. */
  lemma {:induction false} CloseCompletes(run: seq<State>, s: State, c: nat)
    requires IsRun(run) && s == run[|run| - 1]
    requires !s.uploader.Running? && c in s.closers && !s.closers[c].Finished?
    ensures !s.once.Ran? ==> exists s', step :: Advances(s, s', step)
    ensures s.once.Ran? ==> Next(s, s.(closers := s.closers[c := Finished(Verdict(s))]), Closing(c, SkipOnce))
  {
    RunKeeps(run);
    if !s.once.Ran? {
      var s', step := AdvanceOnce(s, c);
    }
  }

  /** No step, of whatever process, adds to the remaining work. */
  lemma {:induction false} LeftNeverGrows(run: seq<State>, s: State, s': State)
    requires IsRun(run) && s == run[|run| - 1] && Moves(s, s')
    ensures Left(s') <= Left(s)
  {
    RunKeeps(run);
    var step :| Next(s, s', step);
    LeftStep(s, s', step);
  }

  lemma {:induction false} LeftStep(s: State, s': State, step: Step)
    requires CloseInv(s) && Next(s, s', step)
    ensures Left(s') <= Left(s)
  {
    match step
    case Reading(_) =>
    case Writing(_) =>
    case Uploading(u) => LeftUploading(s, s', u);
    case Closing(c, k) => LeftClosing(s, s', c, k);
  }

  lemma {:induction false} LeftUploading(s: State, s': State, u: UploadStep)
    requires UploadNext(s, s', u)
    ensures Left(s') <= Left(s)
  {
  }

  lemma {:induction false} LeftClosing(s: State, s': State, c: nat, k: CloseStep)
    requires CloseInv(s) && CloseNext(s, s', c, k)
    ensures Left(s') <= Left(s)
  {
  }

  lemma {:induction false} AdvanceOnce(s: State, c: nat) returns (s': State, step: Step)
    requires Inv(s) && !s.uploader.Running? && c in s.closers && !s.closers[c].Finished? && !s.once.Ran?
    ensures Advances(s, s', step)
  {
    if s.once.NotRun? {
      step := Closing(c, EnterOnce);
      s' := s.(once := RunBy(c), closers := s.closers[c := InOnce]);
    } else if s.closers[s.once.id].InOnce? {
      var o := s.once.id;
      step := Closing(o, CloseWriter);
      s' := s.(writeEndClosed := true, closers := s.closers[o := Waiting]);
    } else {
      match s.uploader {
        case Returned =>
          step := Uploading(ClosePrefix);
          s' := if s.data.prefix.None? then s.(uploader := PrefixClosed(s.uploadErr))
                else s.(prefixClosed := true, uploader := PrefixClosed(if s.uploadErr.None? then s.prefixErr else s.uploadErr));
        case PrefixClosed(err) =>
          step := Uploading(CloseReader);
          s' := s.(uploader := ReaderClosed(err), readEndClosed := true);
        case ReaderClosed(err) =>
          step := Uploading(SendDone);
          s' := s.(uploader := Sent(err), done := Some(err));
        case Sent(err) =>
          var o := s.once.id;
          step := Closing(o, ReceiveDone);
          s' := s.(done := None, closeErr := s.done.value, once := Ran, closers := s.closers[o := Finished(s.done.value)]);
      }
    }
  }
}
