/** Peer replication (`internal/sync/manager.go`): a job queue, any number of
    workers, retries, and peers that keep what they accept. */
module Replication {
  import opened Text
  import opened Wrappers

  const MAX_ATTEMPTS: nat := 3
  const QUEUE_SIZE: nat := 1000

  // --------------------------------------------------------------- manifests

  datatype Json = JNull | JStr(text: string) | JArr(items: seq<Json>) | JObj(fields: map<string, Json>) | JOther

  datatype Manifest = Manifest(json: Json, mediaType: string)

  predicate Contains(s: string, sub: string) {
    exists i: nat | i <= |s| :: OccursAt(s, sub, i)
  }

  predicate ImageManifest(mediaType: string) {
    Contains(mediaType, "manifest.v2") || Contains(mediaType, "oci.image.manifest")
  }

  predicate ManifestList(mediaType: string) {
    Contains(mediaType, "manifest.list") || Contains(mediaType, "oci.image.index")
  }

  /** A string field of an object. */
  predicate HasDigest(j: Json, d: string) {
    j.JObj? && "digest" in j.fields && j.fields["digest"] == JStr(d)
  }

  /** Unmarshalling into a map accepts objects and null. */
  predicate Parses(m: Manifest) {
    m.json.JObj? || m.json.JNull?
  }

  function Field(m: Manifest, name: string): Json {
    if m.json.JObj? && name in m.json.fields then m.json.fields[name] else JNull
  }

  /** A digest the manifest refers to, through its config, layers or manifests. */
  ghost predicate Refers(m: Manifest, d: string) {
    && m.json.JObj?
    && var fields := m.json.fields;
       if Contains(m.mediaType, "manifest.v2") || Contains(m.mediaType, "oci.image.manifest") then
         || ("config" in fields && HasDigest(fields["config"], d))
         || ("layers" in fields && ListsDigest(fields["layers"], d))
       else
         && (Contains(m.mediaType, "manifest.list") || Contains(m.mediaType, "oci.image.index"))
         && "manifests" in fields && ListsDigest(fields["manifests"], d)
  }

  /** An array with an object that has the digest. */
  ghost predicate ListsDigest(a: Json, d: string) {
    a.JArr? && exists j :: j in a.items && HasDigest(j, d)
  }

  /** The digests of array items that have one, in order. */
  method CollectDigests(items: seq<Json>) returns (ds: seq<string>)
    ensures forall d :: d in ds <==> exists j :: j in items && HasDigest(j, d)
  {
    ds := [];
    for i := 0 to |items|
      invariant forall d :: d in ds <==> exists j :: j in items[..i] && HasDigest(j, d)
    {
      var j := items[i];
      ghost var before := ds;
      assert items[..i + 1] == items[..i] + [j];
      if j.JObj? && "digest" in j.fields && j.fields["digest"].JStr? {
        ds := ds + [j.fields["digest"].text];
      }
      forall d ensures d in ds <==> exists x :: x in items[..i + 1] && HasDigest(x, d) {
        if d in before {
          var x :| x in items[..i] && HasDigest(x, d);
          assert x in items[..i + 1];
        } else if HasDigest(j, d) {
          assert j in items[..i + 1];
        }
      }
    }
    assert items[..|items|] == items;
  }

  /** `parseManifestLayers`: no config is the empty string. */
  method ParseManifestLayers(m: Manifest) returns (ok: bool, layers: seq<string>, config: string)
    ensures ok <==> m.json.JObj? || m.json.JNull?
    ensures ok ==> forall d | d != "" :: d in [config] + layers <==> Refers(m, d)
  {
    layers, config := [], "";
    if !Parses(m) {
      return false, [], "";
    }
    ok := true;
    if ImageManifest(m.mediaType) {
      var c := Field(m, "config");
      if c.JObj? && "digest" in c.fields && c.fields["digest"].JStr? {
        config := c.fields["digest"].text;
      }
      if Field(m, "layers").JArr? {
        layers := CollectDigests(Field(m, "layers").items);
      }
    } else if ManifestList(m.mediaType) {
      if Field(m, "manifests").JArr? {
        layers := CollectDigests(Field(m, "manifests").items);
      }
    }
  }

  // -------------------------------------------------------------- the system

  /** The id of a job is its place in the list of all jobs accepted. */
  datatype Job = Job(id: nat, repo: string, reference: string)

  /** How a job ended at a peer. */
  datatype Outcome = Pushed | GaveUp | Cancelled

  /** A worker: idle; choosing a peer; before attempt n; inside it with blobs
      still to sync; after it failed; about to update the metrics. */
  datatype Worker =
    | Idle
    | AtPeer(job: Job, i: nat)
    | Attempting(job: Job, i: nat, n: nat)
    | Syncing(job: Job, i: nat, n: nat, m: Manifest, todo: seq<string>)
    | Failed(job: Job, i: nat, n: nat)
    | Reporting(job: Job, i: nat, outcome: Outcome)

  datatype Received = Received(peer: nat, repo: string, reference: string, m: Manifest)

  /** History of a job at a peer: the policy's decision, attempts begun and
      failed, the manifest fetched last, and the push a peer acknowledged. */
  datatype Log = Log(allowed: Option<bool>, tries: nat, fails: nat, fetched: Option<Manifest>, ack: Option<Received>)

  const UNTOUCHED: Log := Log(None, 0, 0, None, None)

  /** History of an update of the metrics. */
  datatype Report = Report(id: nat, i: nat, outcome: Outcome)

  /** Where a job is. */
  datatype Place = Queued | With(w: nat) | Finished

  /** `modes[i]` is peer i's mode; `held`, `received` are what the peers have;
      `jobs`, `place`, `log`, `reports` and `contacted` are history. */
  datatype State = State(
    modes: seq<string>,
    queue: seq<Job>,
    jobs: seq<Job>,
    place: seq<Place>,
    workers: map<nat, Worker>,
    held: set<(nat, string, string)>,
    received: set<Received>,
    log: map<(nat, nat), Log>,
    reports: seq<Report>,
    contacted: set<nat>,
    total: nat,
    successes: nat,
    failures: nat)
  {
    function To(w: nat, x: Worker): State {
      this.(workers := workers[w := x])
    }

    function Note(x: Worker, l: Log): State
      requires !x.Idle?
    {
      this.(log := log[(x.job.id, x.i) := l])
    }
  }

  predicate Pushes(mode: string) {
    mode == "push" || mode == "bidirectional"
  }

  function LogOf(s: State, id: nat, i: nat): Log {
    if (id, i) in s.log then s.log[(id, i)] else UNTOUCHED
  }

  /** What a worker does next. */
  datatype Act =
    | Take
    | Choose(allowed: bool)
    | Fetch(m: Manifest, digests: seq<string>)
    | FetchFails
    | AlreadyThere
    | Upload
    | BlobFails(reached: bool, stored: bool)
    | Push(arrived: bool, ok: bool)
    | Retry
    | Cancel
    | Update

  datatype Step =
    | Enqueue(repo: string, reference: string)
    | NewWorker(w: nat)
    | PeerGains(i: nat, repo: string, d: string)
    | Work(w: nat, act: Act)

  predicate Busy(x: Worker) {
    !x.Idle?
  }

  ghost predicate Next(s: State, s': State, step: Step) {
    match step
    case Enqueue(repo, reference) =>
      s' == if |s.queue| < QUEUE_SIZE
            then var job := Job(|s.jobs|, repo, reference);
                 s.(queue := s.queue + [job], jobs := s.jobs + [job], place := s.place + [Queued])
            else s
    case NewWorker(w) => w !in s.workers && s' == s.To(w, Idle)
    case PeerGains(i, repo, d) => s' == s.(held := s.held + {(i, repo, d)})
    case Work(w, act) => w in s.workers && WorkerNext(s, s', w, s.workers[w], act)
  }

  ghost predicate WorkerNext(s: State, s': State, w: nat, x: Worker, act: Act) {
    if act.Take? then
      && x.Idle? && s.queue != [] && s.queue[0].id < |s.place|
      && s' == s.To(w, AtPeer(s.queue[0], 0)).(queue := s.queue[1..], place := s.place[s.queue[0].id := With(w)])
    else
      Busy(x) && JobNext(s, s', w, x, act, LogOf(s, x.job.id, x.i))
  }

  /** A worker at work on a job, at a peer. */
  ghost predicate JobNext(s: State, s': State, w: nat, x: Worker, act: Act, l: Log)
    requires Busy(x) && !act.Take?
  {
    match act
    case Choose(allowed) =>
      && x.AtPeer?
      && if x.i >= |s.modes| then
           x.job.id < |s.place| && s' == s.To(w, Idle).(place := s.place[x.job.id := Finished])
         else if !Pushes(s.modes[x.i]) then
           s' == s.To(w, AtPeer(x.job, x.i + 1))
         else
           s' == s.To(w, if allowed then Attempting(x.job, x.i, 1) else AtPeer(x.job, x.i + 1)).Note(x, l.(allowed := Some(allowed)))
    // one attempt: fetch and parse, then config and layers, then the manifest
    case Fetch(m, digests) =>
      && x.Attempting? && Parses(m) && (forall d | d != "" :: d in digests <==> Refers(m, d))
      && s' == s.To(w, Syncing(x.job, x.i, x.n, m, digests)).Note(x, l.(tries := l.tries + 1, fetched := Some(m)))
    case FetchFails =>
      && x.Attempting?
      && s' == s.To(w, Failed(x.job, x.i, x.n)).Note(x, l.(tries := l.tries + 1, fails := l.fails + 1))
    case AlreadyThere =>
      && x.Syncing? && x.todo != []
      && (x.todo[0] == "" || (x.i, x.job.repo, x.todo[0]) in s.held)
      && s' == s.To(w, x.(todo := x.todo[1..])).(
                 contacted := if x.todo[0] == "" then s.contacted else s.contacted + {x.i})
    case Upload =>
      && x.Syncing? && x.todo != [] && x.todo[0] != ""
      && s' == s.To(w, x.(todo := x.todo[1..])).(
                 held := s.held + {(x.i, x.job.repo, x.todo[0])}, contacted := s.contacted + {x.i})
    case BlobFails(reached, stored) =>
      && x.Syncing? && x.todo != [] && (stored ==> reached)
      && s' == s.To(w, Failed(x.job, x.i, x.n)).Note(x, l.(fails := l.fails + 1)).(
                 held := if stored then s.held + {(x.i, x.job.repo, x.todo[0])} else s.held,
                 contacted := if reached then s.contacted + {x.i} else s.contacted)
    case Push(arrived, ok) =>
      && x.Syncing? && x.todo == [] && (ok ==> arrived)
      && var r := Received(x.i, x.job.repo, x.job.reference, x.m);
         s' == s.To(w, if ok then Reporting(x.job, x.i, Pushed) else Failed(x.job, x.i, x.n)).Note(x,
                    if ok then l.(ack := Some(r)) else l.(fails := l.fails + 1)).(
                 received := if arrived then s.received + {r} else s.received,
                 contacted := if arrived then s.contacted + {x.i} else s.contacted)
    case Retry =>
      && x.Failed?
      && s' == s.To(w, if x.n < MAX_ATTEMPTS then Attempting(x.job, x.i, x.n + 1) else Reporting(x.job, x.i, GaveUp))
    case Cancel =>
      x.Failed? && x.n < MAX_ATTEMPTS && s' == s.To(w, Reporting(x.job, x.i, Cancelled))
    case Update =>
      && x.Reporting?
      && s' == s.To(w, AtPeer(x.job, x.i + 1)).(
                 reports := s.reports + [Report(x.job.id, x.i, x.outcome)], total := s.total + 1,
                 successes := s.successes + (if x.outcome.Pushed? then 1 else 0),
                 failures := s.failures + (if x.outcome.Pushed? then 0 else 1))
  }

  ghost predicate Moves(s: State, s': State) {
    exists step :: Next(s, s', step)
  }

  ghost predicate Initial(s: State) {
    && s.queue == [] && s.jobs == [] && s.place == [] && s.workers == map[] && s.received == {} && s.log == map[]
    && s.reports == [] && s.contacted == {} && s.total == s.successes == s.failures == 0
  }

  ghost predicate IsRun(run: seq<State>) {
    && run != []
    && if |run| == 1 then Initial(run[0])
       else IsRun(run[..|run| - 1]) && Moves(run[|run| - 2], run[|run| - 1])
  }

  // --------------------------------------------------------------- invariant

  /** Every digest the manifest refers to is on the peer, or still to do. */
  ghost predicate Covered(s: State, x: Worker)
    requires x.Syncing?
  {
    forall d | d != "" && Refers(x.m, d) :: (x.i, x.job.repo, d) in s.held || d in x.todo
  }

  predicate AtPushPeer(s: State, x: Worker) {
    x.Idle? || x.AtPeer? || (x.i < |s.modes| && Pushes(s.modes[x.i]))
  }

  /** A received manifest has all its digests on its peer. */
  ghost predicate Complete(s: State) {
    forall r, d | r in s.received && d != "" && Refers(r.m, d) :: (r.peer, r.repo, d) in s.held
  }

  /** Updates that report a success. */
  function Oks(reports: seq<Report>): nat {
    if reports == [] then 0
    else Oks(reports[..|reports| - 1]) + if reports[|reports| - 1].outcome.Pushed? then 1 else 0
  }

  /** Only push peers are contacted or receive anything, and the metrics count
      the reports. */
  ghost predicate Ledger(s: State) {
    && (forall i | i in s.contacted :: i < |s.modes| && Pushes(s.modes[i]))
    && (forall r | r in s.received :: r.peer in s.contacted)
    && s.total == |s.reports| && s.successes == Oks(s.reports) && s.total == s.successes + s.failures
  }

  ghost predicate PeerInv(s: State) {
    && (forall w | w in s.workers :: AtPushPeer(s, s.workers[w]))
    && (forall w | w in s.workers && s.workers[w].Syncing? :: Covered(s, s.workers[w]))
    && Complete(s) && Ledger(s)
  }

  /** The outcomes reported for a job at a peer. */
  function Reported(reports: seq<Report>, id: nat, i: nat): seq<Outcome> {
    if reports == [] then []
    else
      var last := reports[|reports| - 1];
      Reported(reports[..|reports| - 1], id, i) + if last.id == id && last.i == i then [last.outcome] else []
  }

  /** The policy agreed, and: the peer acknowledged the manifest fetched last;
      or three attempts failed; or fewer did, and the rest was cancelled. */
  predicate Ended(l: Log, job: Job, i: nat, outcome: Outcome) {
    && l.allowed == Some(true)
    && match outcome
       case Pushed =>
         && l.fetched.Some? && l.ack == Some(Received(i, job.repo, job.reference, l.fetched.value))
         && l.tries == l.fails + 1 <= 3
       case GaveUp => l.ack == None && l.tries == l.fails == 3
       case Cancelled => l.ack == None && 1 <= l.tries == l.fails < 3
  }

  /** Nothing has happened to the job at the peer. */
  predicate Fresh(s: State, id: nat, i: nat) {
    Reported(s.reports, id, i) == [] && LogOf(s, id, i) == UNTOUCHED
  }

  /** The job is through with the peer: reported once if the peer pushes and the
      policy agreed, not at all otherwise. */
  predicate Settled(s: State, job: Job, i: nat) {
    var l, reported := LogOf(s, job.id, i), Reported(s.reports, job.id, i);
    if i < |s.modes| && (s.modes[i] == "push" || s.modes[i] == "bidirectional") then
      && l.allowed.Some?
      && if l.allowed.value then |reported| == 1 && Ended(l, job, i, reported[0])
         else reported == [] && l == UNTOUCHED.(allowed := Some(false))
    else Fresh(s, job.id, i)
  }

  /** The peer a worker is at. */
  predicate OnPair(s: State, x: Worker)
    requires Busy(x)
  {
    var l := LogOf(s, x.job.id, x.i);
    && Reported(s.reports, x.job.id, x.i) == []
    && (!x.AtPeer? ==> x.i < |s.modes| && Pushes(s.modes[x.i]) && l.allowed == Some(true))
    && match x
       case AtPeer(_, _) => l == UNTOUCHED
       case Attempting(_, _, n) => l.ack == None && 1 <= n <= 3 && l.tries == l.fails == n - 1
       case Syncing(_, _, n, m, _) => l.ack == None && 1 <= n <= 3 && l.tries == n == l.fails + 1 && l.fetched == Some(m)
       case Failed(_, _, n) => l.ack == None && 1 <= n <= 3 && l.tries == l.fails == n
       case Reporting(job, i, outcome) => Ended(l, job, i, outcome)
  }

  /** Peers before are settled, peers ahead untouched. */
  ghost predicate Progress(s: State, x: Worker)
    requires Busy(x)
  {
    && (forall k: nat | k < x.i :: Settled(s, x.job, k))
    && (forall k: nat | k > x.i :: Fresh(s, x.job.id, k))
    && OnPair(s, x)
  }

  /** Where a job is says how far it has come. */
  ghost predicate JobOk(s: State, id: nat)
    requires id < |s.jobs| == |s.place|
  {
    && s.jobs[id].id == id
    && match s.place[id]
       case Queued => s.jobs[id] in s.queue && forall k: nat :: Fresh(s, id, k)
       case With(w) =>
         w in s.workers && Busy(s.workers[w]) && s.workers[w].job == s.jobs[id] && Progress(s, s.workers[w])
       case Finished => forall k: nat :: Settled(s, s.jobs[id], k)
  }

  predicate QueueInv(s: State) {
    && (forall a, b | 0 <= a < b < |s.queue| :: s.queue[a].id != s.queue[b].id)
    && (forall j | j in s.queue :: j.id < |s.jobs| == |s.place| && s.jobs[j.id] == j && s.place[j.id] == Queued)
  }

  /** Each busy worker has the job that is said to be with it. */
  predicate WorkerInv(s: State) {
    forall w | w in s.workers && Busy(s.workers[w]) ::
      var id := s.workers[w].job.id; id < |s.jobs| == |s.place| && s.jobs[id] == s.workers[w].job && s.place[id] == With(w)
  }

  ghost predicate JobInv(s: State) {
    && |s.jobs| == |s.place| && QueueInv(s) && WorkerInv(s)
    && (forall id: nat | id < |s.jobs| :: JobOk(s, id))
    && (forall p | p in s.log :: p.0 < |s.jobs|) && (forall r | r in s.reports :: r.id < |s.jobs|)
    && (forall p | p in s.log && s.log[p].ack.Some? :: s.log[p].ack.value in s.received)
  }

  // peers

  /** Worker w moves; peers keep what they have. */
  ghost predicate Moved(s: State, s': State, w: nat) {
    && s'.modes == s.modes && s.held <= s'.held
    && w in s'.workers && s'.workers == s.workers[w := s'.workers[w]]
  }

  lemma {:induction false} WorkMoves(s: State, s': State, w: nat, act: Act)
    requires w in s.workers && WorkerNext(s, s', w, s.workers[w], act)
    ensures Moved(s, s', w)
  {
  }

  lemma {:induction false} PushPeerKept(s: State, s': State, w: nat, act: Act)
    requires w in s.workers && WorkerNext(s, s', w, s.workers[w], act) && AtPushPeer(s, s.workers[w])
    ensures w in s'.workers && AtPushPeer(s', s'.workers[w])
  {
  }

  lemma {:induction false} CoverKept(s: State, s': State, w: nat, act: Act)
    requires w in s.workers && WorkerNext(s, s', w, s.workers[w], act)
    requires s.workers[w].Syncing? ==> Covered(s, s.workers[w])
    ensures w in s'.workers && (s'.workers[w].Syncing? ==> Covered(s', s'.workers[w]))
  {
  }

  lemma {:induction false} ReceiptKept(s: State, s': State, w: nat, act: Act)
    requires w in s.workers && WorkerNext(s, s', w, s.workers[w], act)
    requires s.workers[w].Syncing? ==> Covered(s, s.workers[w])
    requires Complete(s)
    ensures Complete(s')
  {
  }

  /** The ledger of contacted peers and of metrics. */
  lemma {:induction false} LedgerKept(s: State, s': State, w: nat, act: Act)
    requires w in s.workers && WorkerNext(s, s', w, s.workers[w], act) && AtPushPeer(s, s.workers[w])
    requires Ledger(s)
    ensures Ledger(s')
  {
    if act.Update? {
      OksSnoc(s.reports, Report(s.workers[w].job.id, s.workers[w].i, s.workers[w].outcome));
    }
  }

  lemma {:induction false} OksSnoc(reports: seq<Report>, r: Report)
    ensures Oks(reports + [r]) == Oks(reports) + if r.outcome.Pushed? then 1 else 0
  {
    assert (reports + [r])[..|reports|] == reports;
  }

  lemma {:induction false} OtherPeer(s: State, s': State, x: Worker)
    requires s'.modes == s.modes && s.held <= s'.held && AtPushPeer(s, x) && (x.Syncing? ==> Covered(s, x))
    ensures AtPushPeer(s', x) && (x.Syncing? ==> Covered(s', x))
  {
  }

  lemma {:induction false} WorkKeepsPeers(s: State, s': State, w: nat, act: Act)
    requires PeerInv(s) && w in s.workers && WorkerNext(s, s', w, s.workers[w], act)
    ensures PeerInv(s')
  {
    WorkMoves(s, s', w, act);
    PushPeerKept(s, s', w, act);
    CoverKept(s, s', w, act);
    ReceiptKept(s, s', w, act);
    LedgerKept(s, s', w, act);
    forall v | v in s'.workers && v != w
      ensures AtPushPeer(s', s'.workers[v]) && (s'.workers[v].Syncing? ==> Covered(s', s'.workers[v]))
    {
      OtherPeer(s, s', s.workers[v]);
    }
  }

  lemma {:induction false} PeerStep(s: State, s': State, step: Step)
    requires PeerInv(s) && Next(s, s', step)
    ensures PeerInv(s')
  {
    match step
    case Work(w, act) => WorkKeepsPeers(s, s', w, act);
    case Enqueue(_, _) =>
    case NewWorker(_) =>
    case PeerGains(_, _, _) =>
  }

  // jobs

  lemma {:induction false} ReportedSnoc(reports: seq<Report>, r: Report, id: nat, i: nat)
    ensures Reported(reports + [r], id, i) == Reported(reports, id, i) + if r.id == id && r.i == i then [r.outcome] else []
  {
    assert (reports + [r])[..|reports|] == reports;
  }

  lemma {:induction false} NoneReported(reports: seq<Report>, id: nat, i: nat)
    requires forall r | r in reports :: r.id < id
    ensures Reported(reports, id, i) == []
  {
    if reports != [] {
      assert reports[|reports| - 1] in reports;
      NoneReported(reports[..|reports| - 1], id, i);
    }
  }

  /** One pair of job and peer aside, nothing is noted or reported. */
  ghost predicate OnlyPair(s: State, s': State, id: nat, i: nat) {
    && s'.modes == s.modes && s'.jobs == s.jobs
    && forall p: nat, k: nat | p != id || k != i ::
         LogOf(s', p, k) == LogOf(s, p, k) && Reported(s'.reports, p, k) == Reported(s.reports, p, k)
  }

  /** A worker's move on its job, in terms of the job. */
  ghost predicate Worked(s: State, s': State, w: nat)
    requires w in s.workers && Busy(s.workers[w])
  {
    var x := s.workers[w];
    && w in s'.workers && s'.workers == s.workers[w := s'.workers[w]]
    && s'.queue == s.queue && OnlyPair(s, s', x.job.id, x.i)
    && var x' := s'.workers[w];
       if x'.Idle? then
         x.i >= |s.modes| && x.AtPeer? && x.job.id < |s.place| && s'.place == s.place[x.job.id := Finished]
         && LogOf(s', x.job.id, x.i) == LogOf(s, x.job.id, x.i) && s'.reports == s.reports
       else x'.job == x.job && (x'.i == x.i || (x'.AtPeer? && x'.i == x.i + 1)) && s'.place == s.place
  }

  lemma {:induction false} WorkShape(s: State, s': State, w: nat, act: Act)
    requires w in s.workers && Busy(s.workers[w]) && WorkerNext(s, s', w, s.workers[w], act)
    ensures Worked(s, s', w)
  {
    var x := s.workers[w];
    if act.Update? {
      forall p: nat, k: nat | p != x.job.id || k != x.i
        ensures Reported(s'.reports, p, k) == Reported(s.reports, p, k)
      {
        ReportedSnoc(s.reports, Report(x.job.id, x.i, x.outcome), p, k);
      }
    }
  }

  predicate InAttempt(act: Act) {
    act.Fetch? || act.FetchFails? || act.AlreadyThere? || act.Upload? || act.BlobFails? || act.Push?
  }

  lemma {:induction false} AttemptKept(s: State, s': State, w: nat, act: Act)
    requires w in s.workers && Busy(s.workers[w]) && InAttempt(act) && WorkerNext(s, s', w, s.workers[w], act)
    requires OnPair(s, s.workers[w])
    ensures var x := s.workers[w]; w in s'.workers && var x' := s'.workers[w];
      Busy(x') && x'.i == x.i && x'.job == x.job && OnPair(s', x')
  {
  }

  lemma {:induction false} BetweenKept(s: State, s': State, w: nat, act: Act)
    requires w in s.workers && Busy(s.workers[w]) && !InAttempt(act) && WorkerNext(s, s', w, s.workers[w], act)
    requires OnPair(s, s.workers[w])
    ensures var x := s.workers[w]; w in s'.workers && var x' := s'.workers[w];
      Busy(x') ==> if x'.i == x.i && x'.job == x.job then OnPair(s', x') else Settled(s', x.job, x.i)
  {
    var x := s.workers[w];
    if act.Update? {
      ReportedSnoc(s.reports, Report(x.job.id, x.i, x.outcome), x.job.id, x.i);
    }
  }

  /** The pair a worker is at: still worked on, or settled. */
  lemma {:induction false} PairKept(s: State, s': State, w: nat, act: Act)
    requires w in s.workers && Busy(s.workers[w]) && WorkerNext(s, s', w, s.workers[w], act)
    requires OnPair(s, s.workers[w])
    ensures var x := s.workers[w]; w in s'.workers && var x' := s'.workers[w];
      Busy(x') ==> if x'.i == x.i && x'.job == x.job then OnPair(s', x') else Settled(s', x.job, x.i)
  {
    if InAttempt(act) {
      AttemptKept(s, s', w, act);
    } else {
      BetweenKept(s, s', w, act);
    }
  }

  lemma {:induction false} SettledElsewhere(s: State, s': State, id: nat, i: nat, job: Job, k: nat)
    requires OnlyPair(s, s', id, i) && (job.id != id || k != i)
    ensures Settled(s', job, k) == Settled(s, job, k) && Fresh(s', job.id, k) == Fresh(s, job.id, k)
  {
  }

  /** The job worked on. */
  lemma {:induction false} ThisJob(s: State, s': State, w: nat, act: Act)
    requires JobInv(s) && w in s.workers && Busy(s.workers[w]) && WorkerNext(s, s', w, s.workers[w], act)
    ensures |s'.place| == |s'.jobs| == |s.jobs| && s.workers[w].job.id < |s.jobs| && JobOk(s', s.workers[w].job.id)
  {
    var x := s.workers[w];
    var id := x.job.id;
    assert JobOk(s, id) && s.place[id] == With(w);
    WorkShape(s, s', w, act);
    PairKept(s, s', w, act);
    forall k: nat | k != x.i ensures Settled(s', x.job, k) == Settled(s, x.job, k) && Fresh(s', id, k) == Fresh(s, id, k) {
      SettledElsewhere(s, s', id, x.i, x.job, k);
    }
    var x' := s'.workers[w];
    if Busy(x') && x'.i == x.i + 1 {
      assert Fresh(s, id, x'.i) && Fresh(s', id, x'.i);
    } else if !Busy(x') {
      IdleSettled(s, s', x);
    }
  }

  /** Past the last peer everything is settled. */
  lemma {:induction false} IdleSettled(s: State, s': State, x: Worker)
    requires Busy(x) && x.AtPeer? && x.i >= |s.modes| && Progress(s, x)
    requires s'.modes == s.modes && s'.reports == s.reports && forall k: nat :: LogOf(s', x.job.id, k) == LogOf(s, x.job.id, k)
    ensures forall k: nat :: Settled(s', x.job, k)
  {
    forall k: nat ensures Settled(s', x.job, k) {
      assert k < x.i ==> Settled(s, x.job, k);
      assert k > x.i ==> Fresh(s, x.job.id, k);
    }
  }

  /** Any other job. */
  lemma {:induction false} OtherJob(s: State, s': State, id: nat)
    requires id < |s.jobs| == |s.place| && JobOk(s, id)
    requires s'.modes == s.modes && |s'.jobs| == |s'.place| && id < |s'.jobs| && s'.jobs[id] == s.jobs[id] && s'.place[id] == s.place[id]
    requires forall k: nat :: LogOf(s', id, k) == LogOf(s, id, k) && Reported(s'.reports, id, k) == Reported(s.reports, id, k)
    requires s.place[id].Queued? && s.jobs[id] in s.queue ==> s.jobs[id] in s'.queue
    requires s.place[id].With? && s.place[id].w in s.workers ==>
      s.place[id].w in s'.workers && s'.workers[s.place[id].w] == s.workers[s.place[id].w]
    ensures JobOk(s', id)
  {
    assert forall k: nat :: Fresh(s', id, k) == Fresh(s, id, k) && Settled(s', s.jobs[id], k) == Settled(s, s.jobs[id], k);
  }

  lemma {:induction false} NotesKept(s: State, s': State, w: nat, act: Act)
    requires w in s.workers && Busy(s.workers[w]) && WorkerNext(s, s', w, s.workers[w], act)
    requires s.workers[w].job.id < |s.jobs|
    requires (forall p | p in s.log :: p.0 < |s.jobs|) && (forall r | r in s.reports :: r.id < |s.jobs|)
    ensures (forall p | p in s'.log :: p.0 < |s.jobs|) && (forall r | r in s'.reports :: r.id < |s.jobs|)
  {
  }

  lemma {:induction false} AcksKept(s: State, s': State, w: nat, act: Act)
    requires w in s.workers && Busy(s.workers[w]) && WorkerNext(s, s', w, s.workers[w], act)
    requires forall p | p in s.log && s.log[p].ack.Some? :: s.log[p].ack.value in s.received
    ensures forall p | p in s'.log && s'.log[p].ack.Some? :: s'.log[p].ack.value in s'.received
  {
  }

  lemma {:induction false} WorkersKept(s: State, s': State, w: nat)
    requires JobInv(s) && w in s.workers && Busy(s.workers[w]) && Worked(s, s', w)
    ensures |s'.jobs| == |s'.place| && QueueInv(s') && WorkerInv(s')
  {
    assert JobOk(s, s.workers[w].job.id);
  }

  lemma {:induction false} WorkedOther(s: State, s': State, w: nat, id: nat)
    requires JobInv(s) && w in s.workers && Busy(s.workers[w]) && Worked(s, s', w)
    requires id < |s.jobs| && id != s.workers[w].job.id && |s'.jobs| == |s'.place|
    ensures JobOk(s', id)
  {
    assert JobOk(s, id);
    OtherJob(s, s', id);
  }

  lemma {:induction false} WorkKeepsJobs(s: State, s': State, w: nat, act: Act)
    requires JobInv(s) && w in s.workers && Busy(s.workers[w]) && WorkerNext(s, s', w, s.workers[w], act)
    ensures JobInv(s')
  {
    WorkShape(s, s', w, act);
    WorkersKept(s, s', w);
    ThisJob(s, s', w, act);
    NotesKept(s, s', w, act);
    AcksKept(s, s', w, act);
    forall id: nat | id < |s'.jobs| && id != s.workers[w].job.id ensures JobOk(s', id) {
      WorkedOther(s, s', w, id);
    }
  }

  /** The first job leaves the queue for an idle worker. */
  ghost predicate Took(s: State, s': State, w: nat) {
    && w in s.workers && s.workers[w].Idle? && s.queue != [] && s.queue[0].id < |s.place|
    && s'.workers == s.workers[w := AtPeer(s.queue[0], 0)] && s'.queue == s.queue[1..]
    && s'.place == s.place[s.queue[0].id := With(w)]
    && s'.modes == s.modes && s'.jobs == s.jobs && s'.log == s.log && s'.reports == s.reports && s'.received == s.received
  }

  lemma {:induction false} TakeQueue(s: State, s': State, w: nat)
    requires JobInv(s) && Took(s, s', w)
    ensures QueueInv(s')
    ensures forall j | j in s.queue && j.id != s.queue[0].id :: j in s'.queue
  {
    forall j | j in s'.queue ensures j in s.queue && j.id != s.queue[0].id {
      var k :| 0 <= k < |s'.queue| && s'.queue[k] == j;
      assert s.queue[k + 1] == j;
    }
    forall j | j in s.queue && j.id != s.queue[0].id ensures j in s'.queue {
      var k :| 0 <= k < |s.queue| && s.queue[k] == j;
      assert s'.queue[k - 1] == j;
    }
  }

  lemma {:induction false} TakeWorkers(s: State, s': State, w: nat)
    requires JobInv(s) && Took(s, s', w)
    ensures WorkerInv(s')
  {
    assert s.queue[0] in s.queue;
  }

  lemma {:induction false} TakenJob(s: State, s': State, w: nat)
    requires JobInv(s) && Took(s, s', w)
    ensures |s'.jobs| == |s'.place| && s.queue[0].id < |s'.jobs| && JobOk(s', s.queue[0].id)
  {
    var id := s.queue[0].id;
    assert s.queue[0] in s.queue && JobOk(s, id);
    assert forall k: nat :: Fresh(s, id, k) ==> Fresh(s', id, k);
    assert Fresh(s', id, 0);
  }

  lemma {:induction false} TakeKeeps(s: State, s': State, w: nat)
    requires JobInv(s) && Took(s, s', w)
    ensures JobInv(s')
  {
    TakeQueue(s, s', w);
    TakeWorkers(s, s', w);
    TakenJob(s, s', w);
    forall id: nat | id < |s'.jobs| && id != s.queue[0].id ensures JobOk(s', id) {
      assert JobOk(s, id);
      OtherJob(s, s', id);
    }
  }

  lemma {:induction false} EnqueueKeeps(s: State, s': State, repo: string, reference: string)
    requires JobInv(s) && Next(s, s', Enqueue(repo, reference))
    ensures JobInv(s')
  {
    if |s.queue| < QUEUE_SIZE {
      var job := Job(|s.jobs|, repo, reference);
      assert forall j | j in s'.queue :: j in s.queue || j == job;
      forall id: nat | id < |s'.jobs| ensures JobOk(s', id) {
        if id < |s.jobs| {
          assert JobOk(s, id);
          OtherJob(s, s', id);
        } else {
          NewJob(s, s', job);
        }
      }
    }
  }

  lemma {:induction false} NewJob(s: State, s': State, job: Job)
    requires JobInv(s) && job.id == |s.jobs| && s'.log == s.log && s'.reports == s.reports
    ensures forall k: nat :: Fresh(s', job.id, k)
  {
    forall k: nat ensures Fresh(s', job.id, k) {
      NoneReported(s.reports, job.id, k);
    }
  }

  lemma {:induction false} IdleKeeps(s: State, s': State, step: Step)
    requires JobInv(s) && Next(s, s', step) && (step.NewWorker? || step.PeerGains?)
    ensures JobInv(s')
  {
    forall id: nat | id < |s'.jobs| ensures JobOk(s', id) {
      assert JobOk(s, id);
      OtherJob(s, s', id);
    }
  }

  lemma {:induction false} JobStep(s: State, s': State, step: Step)
    requires JobInv(s) && Next(s, s', step)
    ensures JobInv(s')
  {
    match step
    case Enqueue(repo, reference) => EnqueueKeeps(s, s', repo, reference);
    case NewWorker(_) => IdleKeeps(s, s', step);
    case PeerGains(_, _, _) => IdleKeeps(s, s', step);
    case Work(w, act) =>
      if act.Take? {
        TakeKeeps(s, s', w);
      } else {
        WorkKeepsJobs(s, s', w, act);
      }
  }

  lemma {:induction false} RunKeeps(run: seq<State>)
    requires IsRun(run)
    ensures PeerInv(run[|run| - 1]) && JobInv(run[|run| - 1])
  {
    if |run| > 1 {
      var front := run[..|run| - 1];
      RunKeeps(front);
      var s, s' := front[|front| - 1], run[|run| - 1];
      var step :| Next(s, s', step);
      PeerStep(s, s', step);
      JobStep(s, s', step);
    }
  }

  // ---------------------------------------------------------------- theorems

  /** Over every run: a manifest reaches a peer only after every digest parsed
      out of it is there. */
  lemma {:induction false} BlobsBeforeManifest(run: seq<State>, s: State, r: Received, d: string)
    requires IsRun(run) && s == run[|run| - 1] && r in s.received && d != "" && Refers(r.m, d)
    ensures (r.peer, r.repo, d) in s.held
  {
    RunKeeps(run);
  }

  /** Every job accepted is queued, with a worker, or finished. For a finished job
      every peer is settled; for a worker's job every peer before the one it is
      at: reported exactly once if the peer pushes and the policy agreed, and a
      success exactly if the peer acknowledged the manifest. */
  lemma {:induction false} EveryPeerSettled(run: seq<State>, s: State, id: nat)
    requires IsRun(run) && s == run[|run| - 1] && id < |s.jobs|
    ensures |s.place| == |s.jobs| && s.jobs[id].id == id
    ensures s.place[id].Queued? ==> s.jobs[id] in s.queue
    ensures s.place[id].With? ==>
      var w := s.place[id].w;
      && w in s.workers && Busy(s.workers[w]) && s.workers[w].job == s.jobs[id]
      && forall k: nat | k < s.workers[w].i :: Settled(s, s.jobs[id], k)
    ensures s.place[id].Finished? ==> forall k: nat :: Settled(s, s.jobs[id], k)
  {
    RunKeeps(run);
    assert JobOk(s, id);
  }

  /** What has been acknowledged has been received. */
  lemma {:induction false} AcknowledgedIsReceived(run: seq<State>, s: State, id: nat, i: nat)
    requires IsRun(run) && s == run[|run| - 1] && LogOf(s, id, i).ack.Some?
    ensures LogOf(s, id, i).ack.value in s.received
  {
    RunKeeps(run);
    assert (id, i) in s.log;
  }

  lemma {:induction false} TriesBounded(s: State, id: nat, i: nat)
    requires JobInv(s)
    ensures LogOf(s, id, i).tries <= 3
  {
    if (id, i) in s.log {
      assert JobOk(s, id);
      match s.place[id]
      case Queued => assert Fresh(s, id, i);
      case With(w) => assert i < s.workers[w].i ==> Settled(s, s.jobs[id], i);
                      assert i > s.workers[w].i ==> Fresh(s, id, i);
      case Finished => assert Settled(s, s.jobs[id], i);
    }
  }

  /** At most three attempts per job and peer; only push and bidirectional peers
      are ever contacted or receive anything; the metrics count the reports, and
      their successes those of acknowledged pushes. */
  lemma {:induction false} AttemptsPeersAndMetrics(run: seq<State>, s: State, job: nat, i: nat)
    requires IsRun(run) && s == run[|run| - 1]
    ensures LogOf(s, job, i).tries <= 3
    ensures i in s.contacted ==> i < |s.modes| && (s.modes[i] == "push" || s.modes[i] == "bidirectional")
    ensures forall r | r in s.received :: r.peer in s.contacted
    ensures s.total == |s.reports| && s.successes == Oks(s.reports) && s.total == s.successes + s.failures
  {
    RunKeeps(run);
    TriesBounded(s, job, i);
  }
}
