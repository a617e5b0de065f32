/** Where blobs, uploads and repositories live (`internal/storage/blob.go`),
    seen through `SafeJoin`. */
module BlobKeys {
  import opened Text
  import opened CleanPaths
  import opened StorageKeys

  /** A repository in cleaned relative form that never climbs. */
  ghost predicate CleanRepo(repo: string) {
    repo == Clean(repo) && !Rooted(repo) && forall s | s in Segs(repo) :: IsName(s)
  }

  lemma {:induction false} CleanKeyNames(names: seq<string>)
    requires forall s | s in names :: IsName(s)
    ensures KeyNames(Render(false, names)) == names
  {
    NamesAppend(false, [], names);
    NamesAppend(true, [], names);
    assert [] + names == names;
    NormOfRendered(true, [], false, names);
  }

  /** The file of a blob ends in its digest, below its repository. */
  lemma {:induction false} BlobNames(repo: string, digest: string)
    requires CleanRepo(repo) && IsName(digest)
    ensures Segs(BlobPath(repo, digest)) == Segs(repo) + [digest]
    ensures BlobPath(repo, digest) == Render(false, Segs(repo) + [digest])
    ensures KeyNames(BlobPath(repo, digest)) == Segs(repo) + [digest]
  {
    JoinSegs(repo, digest);
    SplitNone(digest, '/');
    SegsNormal(repo);
    NamesAppend(false, Segs(repo), [digest]);
    CleanKeyNames(Segs(repo) + [digest]);
  }

  /** Distinct (repository, digest) pairs never share a file. */
  lemma {:induction false} BlobFilesDistinct(root: string, repo: string, digest: string, repo': string, digest': string)
    requires CleanRepo(repo) && IsName(digest) && CleanRepo(repo') && IsName(digest')
    requires SafeJoin(root, BlobPath(repo, digest)).Ok?
    requires SafeJoin(root, BlobPath(repo, digest)) == SafeJoin(root, BlobPath(repo', digest'))
    ensures repo == repo' && digest == digest'
  {
    var key, key' := BlobPath(repo, digest), BlobPath(repo', digest');
    SafeJoinContained(root, key);
    SafeJoinContained(root, key');
    SameTail(Segs(root), KeyNames(key), KeyNames(key'));
    BlobNames(repo, digest);
    BlobNames(repo', digest');
    SameInit(Segs(repo), digest, Segs(repo'), digest');
  }

  lemma {:induction false} JoinThree(a: string, b: string, c: string)
    requires a != ""
    ensures JoinPath([a, b, c]) == JoinPath([a, b + "/" + c])
  {
    assert [a, b, c][1..] == [b, c] && [b, c][1..] == [c] && [a, b + "/" + c][1..] == [b + "/" + c];
    assert Join([b, c], '/') == b + "/" + c;
    assert Join([a, b, c], '/') == a + "/" + (b + "/" + c) == Join([a, b + "/" + c], '/');
  }

  lemma {:induction false} TwoParts(a: string, b: string)
    requires '/' !in a && '/' !in b
    ensures Split(a + "/" + b, '/') == [a, b]
  {
    SplitNone(a, '/');
    SplitNone(b, '/');
    SplitConcat(a, b, '/');
  }

  /** An upload's key: its repository, "uploads", and its uuid. */
  lemma {:induction false} UploadNames(repo: string, uuid: string)
    requires CleanRepo(repo) && IsName(uuid)
    ensures Segs(UploadPath(repo, uuid)) == Segs(repo) + ["uploads", uuid]
    ensures UploadPath(repo, uuid) == Render(false, Segs(repo) + ["uploads", uuid])
  {
    var tail := "uploads" + "/" + uuid;
    JoinThree(repo, "uploads", uuid);
    JoinSegs(repo, tail);
    TwoParts("uploads", uuid);
    SegsNormal(repo);
    NamesAppend(false, Segs(repo), ["uploads", uuid]);
  }

  lemma {:induction false} SameTail(s: seq<string>, a: seq<string>, b: seq<string>)
    requires s + a == s + b
    ensures a == b
  {
    assert (s + a)[|s|..] == a && (s + b)[|s|..] == b;
  }

  lemma {:induction false} SameInit(a: seq<string>, x: string, b: seq<string>, y: string)
    requires a + [x] == b + [y]
    ensures a == b && x == y
  {
    assert (a + [x])[..|a|] == a && (b + [y])[..|b|] == b;
    assert (a + [x])[|a|] == x && (b + [y])[|b|] == y;
  }

  /** `BlobPath` tells a slash-free digest apart from every other blob exactly
      when the digest is a real name: "", "." and ".." collide. */
  lemma {:induction false} BlobDigestCondition(digest: string)
    requires '/' !in digest
    ensures IsName(digest) <==>
      forall repo, repo', digest' ::
        CleanRepo(repo) && CleanRepo(repo') && IsName(digest')
        && BlobPath(repo, digest) == BlobPath(repo', digest')
        ==> repo == repo' && digest == digest'
  {
    if IsName(digest) {
      forall repo, repo', digest' |
        CleanRepo(repo) && CleanRepo(repo') && IsName(digest')
        && BlobPath(repo, digest) == BlobPath(repo', digest')
        ensures repo == repo' && digest == digest'
      {
        BlobNames(repo, digest);
        BlobNames(repo', digest');
        SameInit(Segs(repo), digest, Segs(repo'), digest');
      }
    } else {
      var repo := DigestCollides(digest);
      assert BlobPath(repo, digest) == BlobPath("a", "b");
    }
  }

  lemma {:induction false} DigestCollides(digest: string) returns (repo: string)
    requires '/' !in digest && !IsName(digest)
    ensures CleanRepo(repo) && CleanRepo("a") && IsName("b") && repo != "a"
    ensures BlobPath(repo, digest) == BlobPath("a", "b")
  {
    var names := if digest == ".." then ["a", "b", "c"] else ["a", "b"];
    repo := Render(false, names);
    RepoOf(names);
    SegsOfA();
    RepoOf(["a"]);
    BlobNames("a", "b");
    JoinSegs(repo, digest);
    SplitNone(digest, '/');
    assert Norm(false, names, [digest]) == Norm(false, Push(false, names, digest), []);
    assert Segs(BlobPath(repo, digest)) == ["a"] + ["b"];
    assert |repo| > 1;
  }

  lemma {:induction false} RepoOf(names: seq<string>)
    requires names != [] && forall s | s in names :: IsName(s)
    ensures CleanRepo(Render(false, names)) && Segs(Render(false, names)) == names
  {
    NamesAppend(false, [], names);
    assert [] + names == names;
    RenderRoundTrip(false, names);
  }

  // ----------------------------------------------------------------- uploads

  lemma {:induction false} NormColonFree(rooted: bool, stack: seq<string>, segs: seq<string>)
    requires forall s | s in stack + segs :: ':' !in s
    ensures forall s | s in Norm(rooted, stack, segs) :: ':' !in s
    decreases segs
  {
    if segs != [] {
      var top := Push(rooted, stack, segs[0]);
      assert segs[0] in stack + segs;
      assert forall s | s in stack || s in segs :: s in stack + segs;
      assert forall s | s in top :: s in stack || s == segs[0] || s == "..";
      NormColonFree(rooted, top, segs[1..]);
    }
  }

  lemma {:induction false} JoinColonFree(parts: seq<string>)
    requires forall p | p in parts :: ':' !in p
    ensures ':' !in Join(parts, '/')
  {
    if |parts| > 1 {
      assert parts[0] in parts;
      JoinColonFree(parts[1..]);
    } else if |parts| == 1 {
      assert parts[0] in parts;
    }
  }

  lemma {:induction false} SegsColonFree(rooted: bool, p: string)
    requires ':' !in p
    ensures forall s | s in Norm(rooted, [], Split(p, '/')) :: ':' !in s
  {
    SplitParts(p, '/');
    assert [] + Split(p, '/') == Split(p, '/');
    NormColonFree(rooted, [], Split(p, '/'));
  }

  lemma {:induction false} CleanColonFree(p: string)
    requires ':' !in p
    ensures ':' !in Clean(p)
  {
    SegsColonFree(Rooted(p), p);
    JoinColonFree(Segs(p));
  }

  lemma {:induction false} JoinPathColonFree(elems: seq<string>)
    requires forall e | e in elems :: ':' !in e
    ensures ':' !in JoinPath(elems)
  {
    if elems != [] {
      if elems[0] == "" {
        JoinPathColonFree(elems[1..]);
      } else {
        JoinColonFree(elems);
        CleanColonFree(Join(elems, '/'));
      }
    }
  }

  /** A blob under a slash-free digest with a colon (as in "sha256:...") never
      lands on a file an upload can have, whatever the upload's repository and
      uuid are, as long as those have no colon. */
  lemma {:induction false} BlobIsNeverUpload(root: string, repo: string, digest: string, repo': string, uuid: string)
    requires CleanRepo(repo) && '/' !in digest && ':' in digest
    requires ':' !in repo' && ':' !in uuid
    requires SafeJoin(root, BlobPath(repo, digest)).Ok?
    ensures SafeJoin(root, BlobPath(repo, digest)) != SafeJoin(root, UploadPath(repo', uuid))
  {
    var key, key' := BlobPath(repo, digest), UploadPath(repo', uuid);
    UploadNamesColonFree(repo', uuid);
    BlobNames(repo, digest);
    assert KeyNames(key)[|Segs(repo)|] == digest;
    assert KeyNames(key) != KeyNames(key');
    DistinctNamesDistinctFiles(root, key, key');
  }

  lemma {:induction false} UploadNamesColonFree(repo: string, uuid: string)
    requires ':' !in repo && ':' !in uuid
    ensures forall s | s in KeyNames(UploadPath(repo, uuid)) :: ':' !in s
  {
    JoinPathColonFree([repo, "uploads", uuid]);
    SegsColonFree(true, UploadPath(repo, uuid));
  }

  /** Keys with different names never share a file. */
  lemma {:induction false} DistinctNamesDistinctFiles(root: string, key: string, key': string)
    requires SafeJoin(root, key).Ok? && KeyNames(key) != KeyNames(key')
    ensures SafeJoin(root, key) != SafeJoin(root, key')
  {
    SafeJoinContained(root, key);
    SafeJoinContained(root, key');
    if SafeJoin(root, key') == SafeJoin(root, key) {
      SameTail(Segs(root), KeyNames(key), KeyNames(key'));
    }
  }

  /** A blob of the repository "<repo>/uploads" is an upload of "<repo>". */
  lemma {:induction false} UploadCollides(repo: string, digest: string)
    requires repo != ""
    ensures BlobPath(repo + "/uploads", digest) == UploadPath(repo, digest)
  {
    var outer := repo + "/uploads";
    assert [repo, "uploads", digest][1..] == ["uploads", digest] && ["uploads", digest][1..] == [digest];
    assert [outer, digest][1..] == [digest];
    assert Join([outer, digest], '/') == outer + "/" + digest;
    assert Join(["uploads", digest], '/') == "uploads" + "/" + digest;
    assert Join([repo, "uploads", digest], '/') == repo + "/" + ("uploads" + "/" + digest);
    assert outer + "/" + digest == repo + "/" + ("uploads" + "/" + digest);
    assert outer != "";
  }

  /** The blobs of a slash-free digest stay clear of all uploads with colon-free
      repository and uuid, under every root, exactly when it has a colon. */
  lemma {:induction false} UploadFreeExactly(digest: string)
    requires '/' !in digest
    ensures ':' in digest <==>
      forall root, repo, repo', uuid ::
        CleanRepo(repo) && ':' !in repo' && ':' !in uuid && SafeJoin(root, BlobPath(repo, digest)).Ok?
        ==> SafeJoin(root, BlobPath(repo, digest)) != SafeJoin(root, UploadPath(repo', uuid))
  {
    if ':' in digest {
      forall root, repo, repo', uuid |
        CleanRepo(repo) && ':' !in repo' && ':' !in uuid && SafeJoin(root, BlobPath(repo, digest)).Ok?
        ensures SafeJoin(root, BlobPath(repo, digest)) != SafeJoin(root, UploadPath(repo', uuid))
      {
        BlobIsNeverUpload(root, repo, digest, repo', uuid);
      }
    } else {
      var repo := MeetingRepo();
      UploadCollides("a", digest);
      UsableRoot(BlobPath(repo, digest));
      assert SafeJoin("a", BlobPath(repo, digest)) == SafeJoin("a", UploadPath("a", digest));
    }
  }

  lemma {:induction false} MeetingRepo() returns (repo: string)
    ensures repo == "a" + "/uploads" && CleanRepo(repo)
  {
    repo := Render(false, ["a", "uploads"]);
    RepoOf(["a", "uploads"]);
    assert ["a", "uploads"][1..] == ["uploads"];
  }

  lemma {:induction false} UsableRoot(key: string)
    ensures SafeJoin("a", key).Ok?
  {
    SegsOfA();
    SafeJoinContained("a", key);
    assert Clean("a") == "a";
  }

  // ------------------------------------------------------------ repositories

  function Names(segs: seq<string>): seq<string> {
    if segs == [] then []
    else (if segs[0] in {"", "."} then [] else [segs[0]]) + Names(segs[1..])
  }

  /** Without ".." cleaning only appends the real names. */
  lemma {:induction false} NormWithoutUps(rooted: bool, stack: seq<string>, segs: seq<string>)
    requires ".." !in segs && forall s | s in segs :: '/' !in s
    ensures Norm(rooted, stack, segs) == stack + Names(segs)
    ensures forall s | s in Names(segs) :: IsName(s)
    decreases segs
  {
    if segs != [] {
      assert segs[0] in segs;
      NormWithoutUps(rooted, Push(rooted, stack, segs[0]), segs[1..]);
    }
  }

  /** A repository as its namespace sees it: without the namespace, if it is
      already qualified. */
  function Below(ns: string, repo: string): string {
    if repo == ns then "" else if HasPrefix(repo, ns + "/") then repo[|ns| + 1..] else repo
  }

  /** `RepositoryPath` puts the repository under its namespace: the names of the
      result are the namespace's and then the repository's own ... */
  lemma {:induction false} RepositoryUnderNamespace(ns: string, repo: string) returns (names: seq<string>)
    requires ns != "" && ns == Clean(ns) && ".." !in Split(repo, '/')
    ensures names == Names(Split(Below(ns, repo), '/')) && forall s | s in names :: IsName(s)
    ensures RepositoryPath(ns, repo) == Render(Rooted(ns), Segs(ns) + names)
    ensures Normal(Rooted(ns), Segs(ns) + names)
  {
    SplitParts(repo, '/');
    SegsNormal(ns);
    names := Names(Split(Below(ns, repo), '/'));
    if repo == ns {
      assert Split("", '/') == [""] && Names([""]) == Names([]);
      assert Segs(ns) + [] == Segs(ns);
    } else if HasPrefix(repo, ns + "/") {
      var rest := repo[|ns| + 1..];
      assert repo == ns + "/" + rest;
      SplitConcat(ns, rest, '/');
      assert forall s | s in Split(rest, '/') :: s in Split(repo, '/');
      NormWithoutUps(Rooted(ns), Segs(ns), Split(rest, '/'));
      NormConcat(Rooted(ns), [], Split(ns, '/'), Split(rest, '/'));
      NamesAppend(Rooted(ns), Segs(ns), names);
    } else {
      JoinSegs(ns, repo);
      NormWithoutUps(Rooted(ns), Segs(ns), Split(repo, '/'));
    }
  }

  /** ... so that two repositories share a path exactly when they spell the same
      names below the namespace ... */
  lemma {:induction false} RepositoryPathInjective(ns: string, a: string, b: string)
    requires ns != "" && ns == Clean(ns) && ".." !in Split(a, '/') && ".." !in Split(b, '/')
    ensures RepositoryPath(ns, a) == RepositoryPath(ns, b) <==>
      Names(Split(Below(ns, a), '/')) == Names(Split(Below(ns, b), '/'))
  {
    var x := RepositoryUnderNamespace(ns, a);
    var y := RepositoryUnderNamespace(ns, b);
    RenderRoundTrip(Rooted(ns), Segs(ns) + x);
    RenderRoundTrip(Rooted(ns), Segs(ns) + y);
    if Segs(ns) + x == Segs(ns) + y {
      SameTail(Segs(ns), x, y);
    }
  }

  /** ... and without a namespace the repository is only cleaned. */
  lemma {:induction false} RepositoryAlone(repo: string)
    requires ".." !in Split(repo, '/')
    ensures RepositoryPath("", repo) == Render(Rooted(repo), Names(Split(repo, '/')))
  {
    SplitParts(repo, '/');
    NormWithoutUps(Rooted(repo), [], Split(repo, '/'));
    assert [] + Names(Split(repo, '/')) == Names(Split(repo, '/'));
  }

  /** Doing it again changes nothing. */
  lemma {:induction false} RepositoryPathIdempotent(ns: string, repo: string)
    requires ns == "" || ns == Clean(ns)
    requires ".." !in Split(repo, '/')
    ensures RepositoryPath(ns, RepositoryPath(ns, repo)) == RepositoryPath(ns, repo)
  {
    RepositoryPathExact(ns, repo);
    if ns != "" {
      var names := RepositoryUnderNamespace(ns, repo);
      RenderRoundTrip(Rooted(ns), Segs(ns) + names);
    } else {
      assert Segs("") == Norm(false, Push(false, [], ""), []);
    }
  }

  // How a second application moves a path that left its namespace.

  /** The number of leading ".." of a cleaned stack. */
  function Ups(stack: seq<string>): nat {
    if stack == [] || stack[0] != ".." then 0 else 1 + Ups(stack[1..])
  }

  lemma {:induction false} UpsShape(rooted: bool, stack: seq<string>)
    requires Normal(rooted, stack)
    ensures Ups(stack) <= |stack| && (rooted ==> Ups(stack) == 0)
    ensures forall i | 0 <= i < |stack| :: stack[i] == ".." <==> i < Ups(stack)
  {
    if stack != [] && stack[0] == ".." {
      var tail := stack[1..];
      forall i | 0 <= i < |tail| && tail[i] == ".." ensures forall j | 0 <= j < i :: tail[j] == ".." {
        assert stack[i + 1] == "..";
        assert forall j | 0 <= j < i :: tail[j] == stack[j + 1];
      }
      assert forall x | x in tail :: x in stack;
      UpsShape(rooted, tail);
      assert forall i | 1 <= i < |stack| :: stack[i] == tail[i - 1];
    }
  }

  function Dots(n: nat): (d: seq<string>)
    ensures |d| == n && forall i | 0 <= i < n :: d[i] == ".."
  {
    seq(n, i => "..")
  }

  /** Where u times ".." leads from a relative stack. */
  function Climbed(stack: seq<string>, u: nat): seq<string>
    requires Ups(stack) <= |stack|
  {
    var v := Ups(stack);
    if u <= |stack| - v then stack[..|stack| - u] else Dots(2 * v + u - |stack|)
  }

  lemma {:induction false} NormDots(stack: seq<string>, u: nat)
    requires u > 0
    ensures Norm(false, stack, Dots(u)) == Norm(false, Push(false, stack, ".."), Dots(u - 1))
  {
    assert Dots(u)[1..] == Dots(u - 1) && Dots(u)[0] == "..";
  }

  lemma {:induction false} Climb(stack: seq<string>, u: nat)
    requires Normal(false, stack)
    ensures Ups(stack) <= |stack| && Norm(false, stack, Dots(u)) == Climbed(stack, u)
    decreases u
  {
    UpsShape(false, stack);
    if u == 0 {
      assert Dots(0) == [] && stack[..|stack|] == stack;
    } else {
      PushNormal(false, stack, "..");
      NormDots(stack, u);
      Climb(Push(false, stack, ".."), u - 1);
      ClimbOne(stack, u);
    }
  }

  lemma {:induction false} ClimbOne(stack: seq<string>, u: nat)
    requires Normal(false, stack) && u > 0
    ensures var next := Push(false, stack, "..");
      Ups(stack) <= |stack| && Ups(next) <= |next| && Climbed(next, u - 1) == Climbed(stack, u)
  {
    var next := Push(false, stack, "..");
    PushNormal(false, stack, "..");
    UpsShape(false, stack);
    UpsShape(false, next);
    var v, n := Ups(stack), |stack|;
    if v < n {
      assert next == stack[..n - 1];
      SameUps(stack, next);
    } else {
      assert next == stack + [".."];
      assert next[v] == ".." && |next| == v + 1;
      assert u == 1 ==> next[..|next|] == Dots(v + 1);
    }
  }

  lemma {:induction false} SameUps(stack: seq<string>, next: seq<string>)
    requires Normal(false, stack) && Normal(false, next) && next <= stack && Ups(stack) <= |next|
    ensures Ups(next) == Ups(stack)
  {
    UpsShape(false, stack);
    UpsShape(false, next);
    var u, v := Ups(next), Ups(stack);
    assert u < |next| ==> next[u] == stack[u];
    assert v < |next| ==> next[v] == stack[v];
  }

  lemma {:induction false} UpsKept(stack: seq<string>, segs: seq<string>)
    requires Normal(false, stack) && forall s | s in segs :: '/' !in s
    ensures Ups(stack) <= Ups(Norm(false, stack, segs))
    decreases segs
  {
    if segs != [] {
      var next := Push(false, stack, segs[0]);
      assert segs[0] in segs && forall s | s in segs[1..] :: s in segs;
      PushNormal(false, stack, segs[0]);
      PushUps(stack, segs[0]);
      UpsKept(next, segs[1..]);
    }
  }

  lemma {:induction false} PushUps(stack: seq<string>, seg: string)
    requires Normal(false, stack) && Normal(false, Push(false, stack, seg))
    ensures Ups(stack) <= Ups(Push(false, stack, seg))
  {
    var next := Push(false, stack, seg);
    UpsShape(false, stack);
    UpsShape(false, next);
    var u, v := Ups(next), Ups(stack);
    assert u < |next| && u < |stack| ==> next[u] == stack[u];
  }

  /** What the first application gives: a cleaned path no higher than the
      namespace's own "..". */
  lemma {:induction false} RepositoryShape(ns: string, repo: string)
    requires ns != "" && ns == Clean(ns)
    ensures var q, rooted := RepositoryPath(ns, repo), Rooted(ns);
      Rooted(q) == rooted && Normal(rooted, Segs(q)) && q == Render(rooted, Segs(q)) && Ups(Segs(ns)) <= Ups(Segs(q))
  {
    var q, rooted := RepositoryPath(ns, repo), Rooted(ns);
    SegsNormal(ns);
    UpsShape(rooted, Segs(ns));
    if repo == ns || HasPrefix(repo, ns + "/") {
      CleanIdempotent(repo);
      if repo != ns {
        var rest := repo[|ns| + 1..];
        assert repo == ns + "/" + rest && repo[0] == ns[0];
        SplitConcat(ns, rest, '/');
        NormConcat(rooted, [], Split(ns, '/'), Split(rest, '/'));
        SplitParts(rest, '/');
        if !rooted {
          UpsKept(Segs(ns), Split(rest, '/'));
        }
      }
    } else {
      JoinSegs(ns, repo);
      SplitParts(repo, '/');
      if !rooted {
        UpsKept(Segs(ns), Split(repo, '/'));
      }
    }
  }

  /** A cleaned path lies under a cleaned namespace by its text exactly when it
      does by its segments. */
  lemma {:induction false} UnderBySegments(rooted: bool, n: seq<string>, q: seq<string>)
    requires Normal(rooted, n) && Normal(rooted, q) && n != []
    ensures var ns, p := Render(rooted, n), Render(rooted, q); n <= q <==> p == ns || HasPrefix(p, ns + "/")
  {
    var ns, p := Render(rooted, n), Render(rooted, q);
    if n <= q {
      if n == q {
      } else {
        var names := q[|n|..];
        assert q == n + names;
        JoinConcat(n, names, '/');
      }
    }
    if p == ns {
      RenderRoundTrip(rooted, n);
      RenderRoundTrip(rooted, q);
    } else if HasPrefix(p, ns + "/") {
      PrefixSegments(rooted, n, q);
    }
  }

  lemma {:induction false} PrefixSegments(rooted: bool, n: seq<string>, q: seq<string>)
    requires Normal(rooted, n) && Normal(rooted, q) && n != []
    requires HasPrefix(Render(rooted, q), Render(rooted, n) + "/")
    ensures n <= q
  {
    var jn, jq := Join(n, '/'), Join(q, '/');
    var lead := if rooted then "/" else "";
    var ns, p := Render(rooted, n), Render(rooted, q);
    var rest := p[|ns| + 1..];
    assert p == ns + "/" + rest && ns == lead + jn;
    assert q != [] by {
      assert n[0] in n && |jn| >= |n[0]| >= 1;
      assert |p| > 1;
    }
    assert p == lead + jq;
    assert jq == p[|lead|..] == jn + ['/'] + rest;
    SplitConcat(jn, rest, '/');
    SplitJoin(n, '/');
    SplitJoin(q, '/');
  }

  /** Reading a path again from a namespace it is not under leaves it where it is
      exactly when the namespace has as many ".." as names. */
  lemma {:induction false} RereadFixed(rooted: bool, n: seq<string>, q: seq<string>)
    requires Normal(rooted, n) && Normal(rooted, q) && Ups(n) <= Ups(q) && n != []
    ensures Norm(rooted, n, q) == q <==> 2 * Ups(n) == |n|
  {
    UpsShape(rooted, n);
    UpsShape(rooted, q);
    var u := Ups(q);
    assert forall i | u <= i < |q| :: q[i] in q;
    assert forall s | s in q[u..] :: IsName(s);
    if rooted {
      assert q[0..] == q;
      NamesAppend(rooted, n, q);
    } else {
      assert q == Dots(u) + q[u..];
      Climb(n, u);
      NormConcat(false, n, Dots(u), q[u..]);
      ClimbedNormal(n, u);
      NamesAppend(false, Climbed(n, u), q[u..]);
      FixedLength(n, q);
    }
  }

  lemma {:induction false} ClimbedNormal(n: seq<string>, u: nat)
    requires Normal(false, n)
    ensures Ups(n) <= |n| && Normal(false, Climbed(n, u))
  {
    UpsShape(false, n);
    Climb(n, u);
    NormNormal(false, n, Dots(u));
  }

  lemma {:induction false} UpsAtLeast(n: seq<string>, u: nat)
    requires Normal(false, n) && u <= |n| && forall i | 0 <= i < u :: n[i] == ".."
    ensures u <= Ups(n)
  {
    UpsShape(false, n);
    if Ups(n) < |n| {
      assert n[Ups(n)] != "..";
    }
  }

  lemma {:induction false} FixedLength(n: seq<string>, q: seq<string>)
    requires Normal(false, n) && Normal(false, q) && Ups(n) <= |n| && Ups(n) <= Ups(q) <= |q|
    ensures Climbed(n, Ups(q)) + q[Ups(q)..] == q <==> 2 * Ups(n) == |n|
  {
    UpsShape(false, n);
    UpsShape(false, q);
    var u, v := Ups(q), Ups(n);
    var base := Climbed(n, u);
    if base + q[u..] == q {
      assert |base| == u;
      assert forall i | 0 <= i < u :: base[i] == q[i] == "..";
      if u <= |n| - v {
        assert forall i | 0 <= i < u :: n[i] == base[i];
        UpsAtLeast(n, u);
      }
    }
    if 2 * v == |n| {
      assert base == q[..u] by {
        assert u == v ==> base == n[..v];
      }
      assert q[..u] + q[u..] == q;
    }
  }

  /** For every cleaned namespace (or none) and every repository: a second
      application changes nothing exactly when the path is inside the namespace,
      or the namespace itself climbs as often as it descends. */
  lemma {:induction false} RepositoryPathExact(ns: string, repo: string)
    requires ns == "" || ns == Clean(ns)
    ensures RepositoryPath(ns, RepositoryPath(ns, repo)) == RepositoryPath(ns, repo) <==>
      Segs(ns) <= Segs(RepositoryPath(ns, repo)) || 2 * Ups(Segs(ns)) == |Segs(ns)|
  {
    var q := RepositoryPath(ns, repo);
    if ns == "" {
      CleanIdempotent(repo);
      assert Segs("") == Norm(false, Push(false, [], ""), []);
    } else {
      var rooted, n := Rooted(ns), Segs(ns);
      RepositoryShape(ns, repo);
      SegsNormal(ns);
      NormOfRendered(rooted, n, rooted, Segs(q));
      JoinSegs(ns, q);
      assert Clean(q) == q;
      if n == [] {
        EmptyNamespace(ns, q);
      } else {
        UnderBySegments(rooted, n, Segs(q));
        RereadFixed(rooted, n, Segs(q));
        RenderDistinct(rooted, Norm(rooted, n, Segs(q)), Segs(q));
      }
    }
  }

  lemma {:induction false} RenderDistinct(rooted: bool, a: seq<string>, b: seq<string>)
    requires Normal(rooted, a) && Normal(rooted, b)
    ensures Render(rooted, a) == Render(rooted, b) <==> a == b
  {
    RenderRoundTrip(rooted, a);
    RenderRoundTrip(rooted, b);
  }

  lemma {:induction false} EmptyNamespace(ns: string, q: string)
    requires ns != "" && ns == Clean(ns) && Segs(ns) == []
    requires Rooted(q) == Rooted(ns) && Normal(Rooted(ns), Segs(q)) && q == Render(Rooted(ns), Segs(q))
    ensures RepositoryPath(ns, q) == q
  {
    JoinSegs(ns, q);
    NormOfRendered(Rooted(ns), [], Rooted(ns), Segs(q));
    assert [] + Segs(q) == Segs(q);
    NormAppends(Rooted(ns), [], Segs(q));
  }

  lemma {:induction false} SegsOfA()
    ensures Segs("a") == ["a"] && !Rooted("a")
  {
    RepoOf(["a"]);
    assert Render(false, ["a"]) == "a";
  }
}
