/** The cache-aside store (`internal/cache/cached_db.go`, `redis.go`) in
    sequential runs: it answers like the bare store. */
module CachedStores {
  import opened Text
  import opened Wrappers

  type Bytes = seq<char>

  datatype Manifest = Manifest(mediaType: string, digest: string, payload: Bytes)

  /** JSON encoding of a manifest row, with the round trip assumed of it. */
  datatype Codec = Codec(encode: Manifest -> Bytes, decode: Bytes -> Option<Manifest>)

  ghost predicate RoundTrip(c: Codec) {
    forall m :: c.decode(c.encode(m)) == Some(m)
  }

  // -------------------------------------------------------------------- keys

  function ManifestKey(ns: string, repo: string, reference: string): string {
    "manifest:" + ns + "/" + repo + ":" + reference
  }

  function ScanKey(digest: string, scanner: string): string {
    "scan:" + digest + ":" + scanner
  }

  lemma {:induction false} ManifestKeyInjective(repo: string, r: string, repo': string, r': string)
    requires ':' !in repo && ':' !in repo' && ManifestKey("", repo, r) == ManifestKey("", repo', r')
    ensures repo == repo' && r == r'
  {
    var p := "manifest:" + "" + "/";
    var a, b := repo + [':'] + r, repo' + [':'] + r';
    assert ManifestKey("", repo, r) == p + a && ManifestKey("", repo', r') == p + b;
    assert (p + a)[|p|..] == a && (p + b)[|p|..] == b;
    FirstSeparator(repo, r, repo', r', ':');
  }

  /** Splitting at the last separator. */
  lemma {:induction false} LastSeparator(a: string, b: string, x: string, y: string, sep: char)
    requires sep !in b && sep !in y && a + [sep] + b == x + [sep] + y
    ensures a == x && b == y
  {
    var s, t := a + [sep] + b, x + [sep] + y;
    assert s[|a|] == sep && t[|x|] == sep;
    assert forall i | |a| < i < |s| :: s[i] == b[i - |a| - 1];
    assert forall i | |x| < i < |t| :: t[i] == y[i - |x| - 1];
    assert |a| == |x|;
    assert s[..|a|] == a && t[..|x|] == x && s[|a| + 1..] == b && t[|x| + 1..] == y;
  }

  lemma {:induction false} ScanKeyInjective(d: string, sc: string, d': string, sc': string)
    requires ':' !in sc && ':' !in sc' && ScanKey(d, sc) == ScanKey(d', sc')
    ensures d == d' && sc == sc'
  {
    var p := "scan:";
    var a, b := d + [':'] + sc, d' + [':'] + sc';
    assert ScanKey(d, sc) == p + a && ScanKey(d', sc') == p + b;
    assert (p + a)[|p|..] == a && (p + b)[|p|..] == b;
    LastSeparator(d, sc, d', sc', ':');
  }

  lemma {:induction false} KeyFamiliesDisjoint(repo: string, r: string, d: string, sc: string)
    ensures ManifestKey("", repo, r) != ScanKey(d, sc)
  {
    assert ManifestKey("", repo, r)[0] == 'm' && ScanKey(d, sc)[0] == 's';
  }

  // ------------------------------------------------------------------- store

  /** The bare store: rows by (repository, reference) and (digest, scanner). */
  datatype Rows = Rows(manifests: map<(string, string), Manifest>, reports: map<(string, string), Bytes>)

  function Find<K, V>(m: map<K, V>, k: K): Option<V> {
    if k in m then Some(m[k]) else None
  }

  ghost predicate ManifestTrue(c: Codec, rows: Rows, cache: map<string, Bytes>, repo: string, r: string) {
    var key := ManifestKey("", repo, r);
    key in cache ==> (repo, r) in rows.manifests && c.decode(cache[key]) == Some(rows.manifests[(repo, r)])
  }

  ghost predicate ReportTrue(rows: Rows, cache: map<string, Bytes>, d: string, sc: string) {
    var key := ScanKey(d, sc);
    key in cache ==> (d, sc) in rows.reports && cache[key] == rows.reports[(d, sc)]
  }

  /** Whatever is cached is what the database holds. */
  ghost predicate Truthful(c: Codec, rows: Rows, cache: map<string, Bytes>) {
    && (forall repo, r | ':' !in repo :: ManifestTrue(c, rows, cache, repo, r))
    && (forall d, sc | ':' !in sc :: ReportTrue(rows, cache, d, sc))
  }

  ghost predicate SameElsewhere<K(!new), V>(a: map<K, V>, b: map<K, V>, k: K) {
    forall x | x != k :: (x in a <==> x in b) && (x in a ==> a[x] == b[x])
  }

  /** A change at one manifest is judged at that manifest alone. */
  lemma {:induction false} ManifestChange(c: Codec, rows0: Rows, cache0: map<string, Bytes>, rows: Rows, cache: map<string, Bytes>, repo: string, r: string)
    requires Truthful(c, rows0, cache0) && ':' !in repo
    requires rows.reports == rows0.reports
    requires SameElsewhere(cache, cache0, ManifestKey("", repo, r)) && SameElsewhere(rows.manifests, rows0.manifests, (repo, r))
    ensures Truthful(c, rows, cache) <==> ManifestTrue(c, rows, cache, repo, r)
  {
    forall q, x | ':' !in q && (q, x) != (repo, r) ensures ManifestTrue(c, rows, cache, q, x) {
      assert ManifestTrue(c, rows0, cache0, q, x);
      if ManifestKey("", q, x) == ManifestKey("", repo, r) {
        ManifestKeyInjective(q, x, repo, r);
      }
    }
    forall d, sc | ':' !in sc ensures ReportTrue(rows, cache, d, sc) {
      assert ReportTrue(rows0, cache0, d, sc);
      KeyFamiliesDisjoint(repo, r, d, sc);
    }
  }

  /** The same for a scan report. */
  lemma {:induction false} ReportChange(c: Codec, rows0: Rows, cache0: map<string, Bytes>, rows: Rows, cache: map<string, Bytes>, d: string, sc: string)
    requires Truthful(c, rows0, cache0) && ':' !in sc
    requires rows.manifests == rows0.manifests
    requires SameElsewhere(cache, cache0, ScanKey(d, sc)) && SameElsewhere(rows.reports, rows0.reports, (d, sc))
    ensures Truthful(c, rows, cache) <==> ReportTrue(rows, cache, d, sc)
  {
    forall q, x | ':' !in q ensures ManifestTrue(c, rows, cache, q, x) {
      assert ManifestTrue(c, rows0, cache0, q, x);
      KeyFamiliesDisjoint(q, x, d, sc);
    }
    forall e, y | ':' !in y && (e, y) != (d, sc) ensures ReportTrue(rows, cache, e, y) {
      assert ReportTrue(rows0, cache0, e, y);
      if ScanKey(e, y) == ScanKey(d, sc) {
        ScanKeyInjective(e, y, d, sc);
      }
    }
  }

  class CachedStore {
    var rows: Rows
    var cache: map<string, Bytes>
    const codec: Codec
    const enabled: bool

    ghost predicate Valid()
      reads this
    {
      RoundTrip(codec) && Truthful(codec, rows, cache) && (!enabled ==> cache == map[])
    }

    constructor (codec: Codec, enabled: bool, rows: Rows)
      requires RoundTrip(codec)
      ensures Valid() && this.rows == rows && this.enabled == enabled && this.codec == codec
    {
      this.codec, this.enabled, this.rows, this.cache := codec, enabled, rows, map[];
    }

    /** `GetManifest`; `up` is whether the cache answers during this call. */
    method GetManifest(repo: string, reference: string, up: bool) returns (m: Option<Manifest>)
      requires Valid() && ':' !in repo
      modifies this`cache
      ensures Valid() && m == Find(rows.manifests, (repo, reference))
    {
      var key := ManifestKey("", repo, reference);
      assert ManifestTrue(codec, rows, cache, repo, reference);
      if enabled && up && key in cache {
        var cached := codec.decode(cache[key]);
        if cached.Some? {
          return cached;
        }
      }
      m := Find(rows.manifests, (repo, reference));
      if m.Some? && enabled && up {
        cache := cache[key := codec.encode(m.value)];
        ManifestChange(codec, rows, old(cache), rows, cache, repo, reference);
      }
    }

    /** `PutManifest`: the row first, then the invalidation, whose error is
        ignored. The cache stays truthful exactly when the deletion took effect,
        or there was nothing to delete, or it already held this manifest. */
    method PutManifest(repo: string, reference: string, m: Manifest, deleted: bool)
      requires Valid() && ':' !in repo
      modifies this
      ensures rows == old(rows).(manifests := old(rows).manifests[(repo, reference) := m])
      ensures var key := ManifestKey("", repo, reference);
        && cache == (if enabled && deleted then old(cache) - {key} else old(cache))
        && (Valid() <==> deleted || key !in old(cache) || codec.decode(old(cache)[key]) == Some(m))
    {
      var key := ManifestKey("", repo, reference);
      rows := rows.(manifests := rows.manifests[(repo, reference) := m]);
      if enabled && deleted {
        cache := cache - {key};
      }
      ManifestChange(codec, old(rows), old(cache), rows, cache, repo, reference);
    }

    /** `DeleteManifest`, with the same proviso. */
    method DeleteManifest(repo: string, reference: string, deleted: bool)
      requires Valid() && ':' !in repo
      modifies this
      ensures rows == old(rows).(manifests := old(rows).manifests - {(repo, reference)})
      ensures var key := ManifestKey("", repo, reference);
        && cache == (if enabled && deleted then old(cache) - {key} else old(cache))
        && (Valid() <==> deleted || key !in old(cache))
    {
      var key := ManifestKey("", repo, reference);
      rows := rows.(manifests := rows.manifests - {(repo, reference)});
      if enabled && deleted {
        cache := cache - {key};
      }
      ManifestChange(codec, old(rows), old(cache), rows, cache, repo, reference);
    }

    /** `GetScanReport`. */
    method GetScanReport(digest: string, scanner: string, up: bool) returns (data: Option<Bytes>)
      requires Valid() && ':' !in scanner
      modifies this`cache
      ensures Valid() && data == Find(rows.reports, (digest, scanner))
    {
      var key := ScanKey(digest, scanner);
      assert ReportTrue(rows, cache, digest, scanner);
      if enabled && up && key in cache {
        return Some(cache[key]);
      }
      data := Find(rows.reports, (digest, scanner));
      if data.Some? && enabled && up {
        cache := cache[key := data.value];
        ReportChange(codec, rows, old(cache), rows, cache, digest, scanner);
      }
    }

    /** `SaveScanReport` writes through: truthful exactly when the cache took the
        new report, or held none, or held the same bytes. */
    method SaveScanReport(digest: string, scanner: string, data: Bytes, stored: bool)
      requires Valid() && ':' !in scanner
      modifies this
      ensures rows == old(rows).(reports := old(rows).reports[(digest, scanner) := data])
      ensures var key := ScanKey(digest, scanner);
        && cache == (if enabled && stored then old(cache)[key := data] else old(cache))
        && (Valid() <==> stored || key !in old(cache) || old(cache)[key] == data)
    {
      var key := ScanKey(digest, scanner);
      rows := rows.(reports := rows.reports[(digest, scanner) := data]);
      if enabled && stored {
        cache := cache[key := data];
      }
      ReportChange(codec, old(rows), old(cache), rows, cache, digest, scanner);
    }

    /** Expiry and eviction. */
    method Evict(key: string)
      requires Valid()
      modifies this`cache
      ensures Valid() && cache == old(cache) - {key}
    {
      cache := cache - {key};
      forall repo, r | ':' !in repo ensures ManifestTrue(codec, rows, cache, repo, r) {
        assert ManifestTrue(codec, rows, old(cache), repo, r);
      }
      forall d, sc | ':' !in sc ensures ReportTrue(rows, cache, d, sc) {
        assert ReportTrue(rows, old(cache), d, sc);
      }
    }
  }

  // -------------------------------------------------------------- whole runs

  datatype Op =
    | Get(repo: string, reference: string, up: bool)
    | Put(repo: string, reference: string, m: Manifest)
    | Delete(repo: string, reference: string)
    | GetReport(digest: string, scanner: string, up: bool)
    | SaveReport(digest: string, scanner: string, data: Bytes)
    | Evict(key: string)

  datatype Answer = NoAnswer | AManifest(m: Option<Manifest>) | AReport(data: Option<Bytes>)

  predicate Legal(op: Op) {
    match op
    case Get(repo, _, _) => ':' !in repo
    case Put(repo, _, _) => ':' !in repo
    case Delete(repo, _) => ':' !in repo
    case GetReport(_, sc, _) => ':' !in sc
    case SaveReport(_, sc, _) => ':' !in sc
    case Evict(_) => true
  }

  /** What the bare store does. */
  function BareRows(rows: Rows, op: Op): Rows {
    match op
    case Put(repo, r, m) => rows.(manifests := rows.manifests[(repo, r) := m])
    case Delete(repo, r) => rows.(manifests := rows.manifests - {(repo, r)})
    case SaveReport(d, sc, data) => rows.(reports := rows.reports[(d, sc) := data])
    case _ => rows
  }

  function BareAnswer(rows: Rows, op: Op): Answer {
    match op
    case Get(repo, r, _) => AManifest(Find(rows.manifests, (repo, r)))
    case GetReport(d, sc, _) => AReport(Find(rows.reports, (d, sc)))
    case _ => NoAnswer
  }

  function BareRun(rows: Rows, ops: seq<Op>): Rows {
    if ops == [] then rows else BareRows(BareRun(rows, ops[..|ops| - 1]), ops[|ops| - 1])
  }

  /** For every sequence of calls and evictions, with cache writes that take
      effect and cache reads that may fail, the cached store gives the bare
      store's answers and ends with the bare store's rows. */
  method RunLikeBare(codec: Codec, enabled: bool, rows: Rows, ops: seq<Op>) returns (answers: seq<Answer>, final: Rows)
    requires RoundTrip(codec) && forall op | op in ops :: Legal(op)
    ensures final == BareRun(rows, ops)
    ensures |answers| == |ops| && forall i | 0 <= i < |ops| :: answers[i] == BareAnswer(BareRun(rows, ops[..i]), ops[i])
  {
    var store := new CachedStore(codec, enabled, rows);
    answers := [];
    for i := 0 to |ops|
      invariant store.Valid() && fresh(store)
      invariant store.rows == BareRun(rows, ops[..i])
      invariant |answers| == i && forall j | 0 <= j < i :: answers[j] == BareAnswer(BareRun(rows, ops[..j]), ops[j])
    {
      var answer := Apply(store, ops[i]);
      answers := answers + [answer];
      assert ops[..i + 1][..i] == ops[..i];
    }
    assert ops[..|ops|] == ops;
    final := store.rows;
  }

  method Apply(store: CachedStore, op: Op) returns (answer: Answer)
    requires store.Valid() && Legal(op)
    modifies store
    ensures store.Valid() && store.rows == BareRows(old(store.rows), op)
    ensures answer == BareAnswer(old(store.rows), op)
  {
    answer := NoAnswer;
    match op
    case Get(repo, r, up) =>
      var m := store.GetManifest(repo, r, up);
      answer := AManifest(m);
    case Put(repo, r, m) => store.PutManifest(repo, r, m, true);
    case Delete(repo, r) => store.DeleteManifest(repo, r, true);
    case GetReport(d, sc, up) =>
      var data := store.GetScanReport(d, sc, up);
      answer := AReport(data);
    case SaveReport(d, sc, data) => store.SaveScanReport(d, sc, data, true);
    case Evict(key) => store.Evict(key);
  }
}
