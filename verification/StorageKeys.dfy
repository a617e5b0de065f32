/** Storage keys (`internal/storage/path.go`, `internal/storage/blob.go`) and
    layer extraction paths (`internal/scanner/layers.go`). */
module StorageKeys {
  import opened Text
  import opened CleanPaths

  datatype Result = Ok(path: string) | Err

  // ------------------------------------------------------------ Go's library

  /** `path.Join` / `filepath.Join`: leading empty elements are ignored. */
  function JoinPath(elems: seq<string>): string {
    if elems == [] then ""
    else if elems[0] == "" then JoinPath(elems[1..])
    else Clean(Join(elems, '/'))
  }

  /** The words `filepath.Rel` compares: "." has none, and a trailing slash
      (which a cleaned path has only when it is "/") adds none. */
  function RelWords(p: string): seq<string> {
    if p == "." then [] else if p == "/" then [""] else Split(p, '/')
  }

  function Common(a: seq<string>, b: seq<string>): (n: nat)
    ensures n <= |a| && n <= |b|
  {
    if a != [] && b != [] && a[0] == b[0] then 1 + Common(a[1..], b[1..]) else 0
  }

  /** `filepath.Rel` on Unix. */
  function Rel(base: string, targ: string): Result {
    RelClean(Clean(base), Clean(targ))
  }

  function RelClean(b: string, t: string): Result {
    if b == t then Ok(".")
    else if Rooted(b) != Rooted(t) then Err
    else
      var bw, tw := RelWords(b), if t == "." then ["."] else RelWords(t);
      var n := Common(bw, tw);
      if n < |bw| && n < |tw| && bw[n] == ".." then Err
      else Ok(Join(seq(|bw| - n, i => "..") + tw[n..], '/'))
  }

  // ---------------------------------------------------------------- the code

  function SafeJoin(root: string, key: string): Result {
    var cleanKey := Clean("/" + TrimPrefix(key, "/"));
    var full := JoinPath([root, cleanKey]);
    var rootClean := Clean(root);
    if full != rootClean && !HasPrefix(full, rootClean + "/") then Err else Ok(full)
  }

  function SafeExtractionPath(root: string, name: string): Result {
    var cleanName := Clean(name);
    if cleanName == "." || Rooted(cleanName) || cleanName == ".." || HasPrefix(cleanName, "../") then Err
    else
      var target := JoinPath([root, cleanName]);
      match Rel(root, target)
      case Err => Err
      case Ok(rel) => if rel == ".." || HasPrefix(rel, "../") then Err else Ok(target)
  }

  function BlobPath(repository: string, digest: string): string {
    JoinPath([repository, digest])
  }

  function UploadPath(repository: string, uuid: string): string {
    JoinPath([repository, "uploads", uuid])
  }

  function RepositoryPath(namespace: string, repository: string): string {
    if namespace == "" || repository == namespace || HasPrefix(repository, namespace + "/") then
      Clean(repository)
    else
      JoinPath([namespace, repository])
  }

  // ------------------------------------------------------------ preliminaries

  /** Where a joined path lands, in segments. */
  lemma {:induction false} JoinSegs(a: string, b: string)
    requires a != ""
    ensures var p := JoinPath([a, b]);
      && Rooted(p) == Rooted(a)
      && Segs(p) == Norm(Rooted(a), Segs(a), Split(b, '/'))
      && p == Render(Rooted(a), Segs(p)) && Normal(Rooted(a), Segs(p))
  {
    var raw := a + "/" + b;
    assert [a, b][1..] == [b];
    assert Join([a, b], '/') == raw;
    SplitConcat(a, b, '/');
    NormConcat(Rooted(a), [], Split(a, '/'), Split(b, '/'));
    CleanIdempotent(raw);
  }

  /** Empty segments do not matter, so neither does a leading slash. */
  lemma {:induction false} LeadingSlash(rooted: bool, stack: seq<string>, s: string)
    ensures Norm(rooted, stack, Split("/" + s, '/')) == Norm(rooted, stack, Split(s, '/'))
  {
    assert ("/" + s)[1..] == s;
    assert ([""] + Split(s, '/'))[1..] == Split(s, '/');
  }

  /** The names a key contributes once ".." can no longer climb out. */
  function KeyNames(key: string): seq<string> {
    Norm(true, [], Split(key, '/'))
  }

  lemma {:induction false} KeyNamesAreNames(key: string)
    ensures Normal(true, KeyNames(key))
    ensures forall s | s in KeyNames(key) :: IsName(s)
  {
    SplitParts(key, '/');
    NormNormal(true, [], Split(key, '/'));
  }

  lemma {:induction false} CleanKey(key: string)
    ensures Clean("/" + TrimPrefix(key, "/")) == Render(true, KeyNames(key))
  {
    var k := TrimPrefix(key, "/");
    LeadingSlash(true, [], k);
    if HasPrefix(key, "/") {
      assert "/" + k == key;
    }
  }

  /** Splitting a printed clean stack gives it back, up to empty segments. */
  lemma {:induction false} NormOfRendered(rooted: bool, stack: seq<string>, r: bool, names: seq<string>)
    requires Normal(r, names)
    ensures Norm(rooted, stack, Split(Render(r, names), '/')) == Norm(rooted, stack, names)
  {
    if names == [] {
      if r {
        LeadingSlash(rooted, stack, "");
        assert "/" + "" == "/";
        assert Norm(rooted, stack, [""]) == Norm(rooted, Push(rooted, stack, ""), []);
      } else {
        SplitNone(".", '/');
        assert Norm(rooted, stack, ["."]) == Norm(rooted, Push(rooted, stack, "."), []);
      }
    } else {
      SplitJoin(names, '/');
      if r {
        LeadingSlash(rooted, stack, Join(names, '/'));
      }
    }
  }

  lemma {:induction false} NamesAppend(rooted: bool, stack: seq<string>, names: seq<string>)
    requires Normal(rooted, stack) && forall s | s in names :: IsName(s)
    ensures Normal(rooted, stack + names)
    ensures Norm(rooted, stack, names) == stack + names
  {
    var all := stack + names;
    assert forall k | 0 <= k < |names| :: names[k] in names;
    assert forall i | |stack| <= i < |all| :: all[i] == names[i - |stack|];
    forall i | 0 <= i < |all| && all[i] == ".."
      ensures !rooted && forall j | 0 <= j < i :: all[j] == ".."
    {
      assert i < |stack|;
      assert forall j | 0 <= j < i :: all[j] == stack[j];
    }
    NormAppends(rooted, stack, names);
  }

  /** Printing after appending names: a prefix, a slash, the names. */
  lemma {:induction false} RenderAppend(rooted: bool, stack: seq<string>, names: seq<string>)
    requires stack != [] && names != []
    ensures Render(rooted, stack + names) == Render(rooted, stack) + "/" + Join(names, '/')
  {
    JoinConcat(stack, names, '/');
  }

  // -------------------------------------------------------------- containment

  /** Containment and the exact failure condition of `SafeJoin`, for every root
      and key. On success the result is the cleaned root followed by the key's
      names, none of which is "", "." or ".."; it fails exactly when the root is
      empty, or cleans to "." or "/" while the key has a name. */
  lemma {:induction false} SafeJoinContained(root: string, key: string)
    ensures forall s | s in KeyNames(key) :: IsName(s)
    ensures SafeJoin(root, key).Err? <==>
            root == "" || (Clean(root) in {".", "/"} && KeyNames(key) != [])
    ensures SafeJoin(root, key).Ok? ==>
      var full := SafeJoin(root, key).path;
      && Rooted(full) == Rooted(root)
      && Segs(full) == Segs(root) + KeyNames(key)
      && full == Clean(full)
      && full == (if KeyNames(key) == [] then Clean(root) else Clean(root) + "/" + Join(KeyNames(key), '/'))
  {
    var names := KeyNames(key);
    var cleanKey := Render(true, names);
    KeyNamesAreNames(key);
    CleanKey(key);
    var full := JoinPath([root, cleanKey]);
    CleanIdempotent(root);
    if root == "" {
      assert [root, cleanKey][1..] == [cleanKey];
      CleanIdempotent(cleanKey);
      assert Rooted(full) && full[0] == '/';
      assert Clean("") == ".";
      assert ("." + "/")[0] == '.';
    } else {
      var rooted, segs := Rooted(root), Segs(root);
      JoinSegs(root, cleanKey);
      NormOfRendered(rooted, segs, true, names);
      NamesAppend(rooted, segs, names);
      assert Segs(full) == segs + names;
      RenderRoundTrip(rooted, segs + names);
      if names == [] {
        assert segs + names == segs;
      } else if segs != [] {
        RenderAppend(rooted, segs, names);
        assert HasPrefix(full, Clean(root) + "/");
        BareRoots(rooted, segs);
      } else {
        assert segs + names == names && names[0] in names;
        assert Clean(root) == Render(rooted, []) && full == Render(rooted, names);
        NoBarePrefix(rooted, names);
        assert Join([], '/') == "" && "/" + "" == "/";
        assert Clean(root) in {".", "/"};
        assert SafeJoin(root, key).Err?;
      }
    }
  }

  /** Only the empty stack prints as "." or "/". */
  lemma {:induction false} BareRoots(rooted: bool, stack: seq<string>)
    requires Normal(rooted, stack) && stack != []
    ensures Render(rooted, stack) !in {".", "/"}
  {
    RenderRoundTrip(rooted, stack);
    RenderRoundTrip(false, []);
    RenderRoundTrip(true, []);
  }

  /** No printed list of names starts with "./", "//", or equals "." or "/". */
  lemma {:induction false} NoBarePrefix(rooted: bool, names: seq<string>)
    requires names != [] && forall s | s in names :: IsName(s)
    ensures var p := Render(rooted, names); var bare := Render(rooted, []);
      p != bare && !HasPrefix(p, bare + "/")
  {
    var p, bare := Render(rooted, names), Render(rooted, []);
    NamesAppend(rooted, [], names);
    assert [] + names == names;
    assert names[0] in names;
    BareRoots(rooted, names);
    assert |names[0]| > 1 ==> names[0][1] in names[0];
    assert names[0][0] in names[0];
    if rooted {
      assert p[1] == names[0][0];
      assert (bare + "/")[1] == '/';
    } else {
      assert p[0] == names[0][0];
      assert |names[0]| > 1 ==> p[1] == names[0][1];
      assert (bare + "/")[0] == '.' && (bare + "/")[1] == '/';
    }
  }

  lemma {:induction false} CommonPrefix(a: seq<string>, b: seq<string>)
    ensures Common(a, a + b) == |a|
  {
    if a != [] {
      assert (a + b)[1..] == a[1..] + b;
      CommonPrefix(a[1..], b);
    }
  }

  function Words(rooted: bool, stack: seq<string>): seq<string> {
    (if rooted then [""] else []) + stack
  }

  lemma {:induction false} WordsAppend(rooted: bool, segs: seq<string>, names: seq<string>)
    ensures Words(rooted, segs + names) == Words(rooted, segs) + names
  {
    var lead: seq<string> := if rooted then [""] else [];
    assert lead + (segs + names) == (lead + segs) + names;
  }

  lemma {:induction false} RelWordsOfRendered(rooted: bool, stack: seq<string>)
    requires Normal(rooted, stack)
    ensures RelWords(Render(rooted, stack)) == Words(rooted, stack)
  {
    if stack == [] {
      assert [""] + stack == [""] && [] + stack == [];
      assert Join([], '/') == "" && "/" + "" == "/";
    } else {
      BareRoots(rooted, stack);
      SplitJoin(stack, '/');
      assert [] + stack == stack;
      if rooted {
        assert ("/" + Join(stack, '/'))[1..] == Join(stack, '/');
      }
    }
  }

  /** From a directory to something below it, `Rel` is just the names added. */
  lemma {:induction false} RelBelow(root: string, rooted: bool, segs: seq<string>, names: seq<string>)
    requires rooted == Rooted(root) && segs == Segs(root)
    requires names != [] && forall s | s in names :: IsName(s)
    ensures Rel(root, Render(rooted, segs + names)) == Ok(Join(names, '/'))
  {
    SegsNormal(root);
    NamesAppend(rooted, segs, names);
    RenderRoundTrip(rooted, segs + names);
    RelCleanBelow(rooted, segs, names);
  }

  lemma {:induction false} RelCleanBelow(rooted: bool, segs: seq<string>, names: seq<string>)
    requires Normal(rooted, segs) && Normal(rooted, segs + names) && names != []
    ensures RelClean(Render(rooted, segs), Render(rooted, segs + names)) == Ok(Join(names, '/'))
  {
    var b, t := Render(rooted, segs), Render(rooted, segs + names);
    assert segs + names != segs by {
      assert |segs + names| != |segs|;
    }
    RenderInjective(rooted, segs, segs + names);
    BareRoots(rooted, segs + names);
    RelWordsAppend(rooted, segs, names);
    RelByWords(b, t, names);
  }

  lemma {:induction false} RelWordsAppend(rooted: bool, segs: seq<string>, names: seq<string>)
    requires Normal(rooted, segs) && Normal(rooted, segs + names)
    ensures RelWords(Render(rooted, segs + names)) == RelWords(Render(rooted, segs)) + names
  {
    RelWordsOfRendered(rooted, segs);
    RelWordsOfRendered(rooted, segs + names);
    WordsAppend(rooted, segs, names);
  }

  lemma {:induction false} RenderInjective(rooted: bool, a: seq<string>, b: seq<string>)
    requires Normal(rooted, a) && Normal(rooted, b)
    ensures Rooted(Render(rooted, a)) == rooted == Rooted(Render(rooted, b))
    ensures Render(rooted, a) == Render(rooted, b) ==> a == b
  {
    RenderRoundTrip(rooted, a);
    RenderRoundTrip(rooted, b);
  }

  lemma {:induction false} RelByWords(b: string, t: string, names: seq<string>)
    requires b != t && t != "." && Rooted(b) == Rooted(t)
    requires RelWords(t) == RelWords(b) + names
    ensures RelClean(b, t) == Ok(Join(names, '/'))
  {
    var bw, tw := RelWords(b), RelWords(t);
    CommonPrefix(bw, names);
    assert seq(0, i => "..") + tw[|bw|..] == names;
  }

  lemma {:induction false} UpPrefix(segs: seq<string>)
    requires segs != [] && forall s | s in segs :: '/' !in s
    ensures var p := Join(segs, '/'); segs[0] == ".." <==> p == ".." || HasPrefix(p, "../")
  {
    var p := Join(segs, '/');
    SplitJoin(segs, '/');
    if segs[0] == ".." && |segs| > 1 {
      assert p == ".." + "/" + Join(segs[1..], '/');
      assert p[..3] == "../";
    }
    if HasPrefix(p, "../") {
      assert p == "../" + p[3..] && "../" + p[3..] == ".." + "/" + p[3..];
      SplitConcat("..", p[3..], '/');
    }
    SplitNone("..", '/');
  }

  /** `safeExtractionPath` rejects exactly the names that are absolute, empty
      after cleaning, or climb; everything else lands strictly below the root,
      and the second, `Rel`-based check never rejects what the first let by. */
  lemma {:induction false} ExtractionStaysBelow(root: string, name: string)
    ensures var names := Segs(name);
      var escapes := Rooted(name) || names == [] || names[0] == "..";
      && (SafeExtractionPath(root, name).Err? <==> escapes)
      && (!escapes ==>
            && (forall s | s in names :: IsName(s))
            && var base := if root == "" then "." else root;
               SafeExtractionPath(root, name) == Ok(Render(Rooted(base), Segs(base) + names)))
  {
    var names := Segs(name);
    var cleanName := Clean(name);
    CleanIdempotent(name);
    if !Rooted(name) && names != [] {
      assert forall s | s in names :: '/' !in s;
      UpPrefix(names);
      BareRoots(false, names);
      if names[0] != ".." {
        assert forall s | s in names :: IsName(s) by {
          forall i | 0 <= i < |names| ensures names[i] != ".." {}
        }
        ExtractionTarget(root, names);
      }
    }
  }

  lemma {:induction false} ExtractionTarget(root: string, names: seq<string>)
    requires names != [] && forall s | s in names :: IsName(s)
    ensures var base := if root == "" then "." else root;
      && JoinPath([root, Join(names, '/')]) == Render(Rooted(base), Segs(base) + names)
      && Rel(root, Render(Rooted(base), Segs(base) + names)) == Ok(Join(names, '/'))
  {
    var base := if root == "" then "." else root;
    var cleanName := Join(names, '/');
    NamesAppend(false, [], names);
    assert [] + names == names;
    if root == "" {
      DotSegs();
      assert [root, cleanName][1..] == [cleanName];
      RenderRoundTrip(false, names);
      assert names[0] in names;
    } else {
      JoinSegs(root, cleanName);
      SegsNormal(root);
      NormOfRendered(Rooted(root), Segs(root), false, names);
      NamesAppend(Rooted(root), Segs(root), names);
    }
    RelBelow(base, Rooted(base), Segs(base), names);
  }

  lemma {:induction false} DotSegs()
    ensures Segs(".") == [] && Segs("") == [] && Clean("") == Clean(".")
  {
    SplitNone(".", '/');
    assert Norm(false, [], ["."]) == Norm(false, Push(false, [], "."), []);
    assert Norm(false, [], [""]) == Norm(false, Push(false, [], ""), []);
  }
}
