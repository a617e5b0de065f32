/** Authorisation (`internal/auth`): the scope matcher and the token grant of
    handler.go and the request checks of middleware.go, which are written
    independently and meant to agree. A `char` is a rune. */
module Scopes {
  import opened Text
  import opened Wrappers

  datatype Access = Access(typ: string, name: string, actions: seq<string>)

  // ------------------------------------------------------------ scope matcher

  predicate NameMatches(pattern: string, name: string) {
    || pattern == "*" || pattern == name
    || (HasSuffix(pattern, "/*") && HasPrefix(name, TrimSuffix(pattern, "/*") + "/"))
  }

  function TrimmedItems(items: seq<string>): set<string> {
    set a | a in items :: TrimSpace(a)
  }

  lemma {:induction false} TrimmedSnoc(items: seq<string>, a: string)
    ensures TrimmedItems(items + [a]) == TrimmedItems(items) + {TrimSpace(a)}
  {
    assert a in items + [a];
    assert forall x | x in items :: x in items + [a];
  }

  /** The actions a comma-separated list names, blanks trimmed. */
  function Trimmed(list: string): set<string> {
    TrimmedItems(Split(list, ','))
  }

  /** A stored scope covers all requested actions on a resource. */
  predicate ScopeAllows(scope: string, typ: string, name: string, actions: seq<string>) {
    var parts := Split(scope, ':');
    && |parts| >= 2 && parts[0] == typ && NameMatches(parts[1], name)
    && (|parts| == 2 || "*" in Trimmed(parts[2]) || forall a | a in actions :: a in Trimmed(parts[2]))
  }

  /** `matchesScope`. */
  method MatchesScope(userScope: string, requestedType: string, requestedName: string, requestedActions: seq<string>)
    returns (ok: bool)
    ensures ok <==> ScopeAllows(userScope, requestedType, requestedName, requestedActions)
  {
    var parts := Split(userScope, ':');
    if |parts| < 2 {
      return false;
    }
    var scopeType, scopeName := parts[0], parts[1];
    var scopeActions: seq<string> := [];
    if |parts| >= 3 {
      scopeActions := Split(parts[2], ',');
    }
    if scopeType != requestedType {
      return false;
    }
    if scopeName != "*" && scopeName != requestedName {
      if HasSuffix(scopeName, "/*") {
        var prefix := TrimSuffix(scopeName, "/*");
        if !HasPrefix(requestedName, prefix + "/") {
          return false;
        }
      } else {
        return false;
      }
    }
    if |scopeActions| > 0 {
      var scopeActionSet: set<string> := {};
      for i := 0 to |scopeActions|
        invariant scopeActionSet == TrimmedItems(scopeActions[..i])
      {
        TrimmedSnoc(scopeActions[..i], scopeActions[i]);
        assert scopeActions[..i + 1] == scopeActions[..i] + [scopeActions[i]];
        scopeActionSet := scopeActionSet + {TrimSpace(scopeActions[i])};
      }
      assert scopeActions[..|scopeActions|] == scopeActions;
      if "*" in scopeActionSet {
        return true;
      }
      for i := 0 to |requestedActions|
        invariant forall a | a in requestedActions[..i] :: a in scopeActionSet
      {
        assert requestedActions[i] in requestedActions;
        if requestedActions[i] !in scopeActionSet {
          return false;
        }
        assert requestedActions[..i + 1] == requestedActions[..i] + [requestedActions[i]];
      }
      assert requestedActions[..|requestedActions|] == requestedActions;
    }
    return true;
  }

  /** Covering a list of actions covers every non-empty part of what it grants:
      each action asked for, and everything if "*" was asked for. */
  lemma {:induction false} AllowsFewerActions(scope: string, typ: string, name: string, actions: seq<string>, action: string)
    requires ScopeAllows(scope, typ, name, actions)
    requires action in actions || "*" in actions
    ensures ScopeAllows(scope, typ, name, [action])
  {
  }

  // ---------------------------------------------------------- request checks

  function RequiredAction(verb: string): string {
    if verb in {"GET", "HEAD"} then "pull"
    else if verb in {"POST", "PUT", "PATCH", "DELETE"} then "push"
    else "pull"
  }

  /** `strings.Index`, as an option. */
  method Index(s: string, sub: string) returns (r: Option<nat>)
    ensures r.None? ==> forall i: nat :: !OccursAt(s, sub, i)
    ensures r.Some? ==> OccursAt(s, sub, r.value) && forall i: nat | i < r.value :: !OccursAt(s, sub, i)
  {
    var i := 0;
    while i + |sub| <= |s|
      invariant forall k: nat | k < i :: !OccursAt(s, sub, k)
    {
      if s[i..i + |sub|] == sub {
        return Some(i);
      }
      i := i + 1;
    }
    return None;
  }

  /** The path markers an endpoint follows, in the order they are looked for. */
  const ENDPOINTS: seq<string> := ["/blobs/", "/manifests/", "/tags/", "/referrers/"]

  /** `cut` is `path` up to the first occurrence of the first endpoint in the
      list that occurs at all; the whole path if none does. */
  ghost predicate CutPath(path: string, cut: string) {
    || (cut == path && forall e, i: nat | e in ENDPOINTS :: !OccursAt(path, e, i))
    || exists k: nat, at: nat :: CutHere(path, cut, k, at)
  }

  ghost predicate CutHere(path: string, cut: string, k: nat, at: nat) {
    && k < |ENDPOINTS| && OccursAt(path, ENDPOINTS[k], at) && cut == path[..at]
    && (forall i: nat | i < at :: !OccursAt(path, ENDPOINTS[k], i))
    && (forall j: nat, i: nat | j < k :: !OccursAt(path, ENDPOINTS[j], i))
  }

  lemma {:induction false} CutUnique(path: string, a: string, b: string)
    requires CutPath(path, a) && CutPath(path, b)
    ensures a == b
  {
    if a != path && b != path {
      var k: nat, i: nat :| CutHere(path, a, k, i);
      var l: nat, j: nat :| CutHere(path, b, l, j);
      assert !(k < l) && !(l < k);
      assert !(i < j) && !(j < i);
    } else if a != path {
      var k: nat, i: nat :| CutHere(path, a, k, i);
      assert ENDPOINTS[k] in ENDPOINTS;
      CutWhole(path, a, b, k, i);
    } else if b != path {
      var k: nat, i: nat :| CutHere(path, b, k, i);
      assert ENDPOINTS[k] in ENDPOINTS;
      CutWhole(path, b, a, k, i);
    }
  }

  lemma {:induction false} CutWhole(path: string, a: string, b: string, k: nat, i: nat)
    requires CutHere(path, a, k, i) && CutPath(path, b)
    ensures a == b
  {
    assert ENDPOINTS[k] in ENDPOINTS;
    var l: nat, j: nat :| CutHere(path, b, l, j);
    assert !(k < l) && !(l < k);
    assert !(i < j) && !(j < i);
  }

  /** The repository a request is about; "*" for the API root. */
  ghost predicate RepoOf(path: string, repo: string) {
    exists cut :: CutPath(path, cut) && repo ==
      var r := TrimPrefix(cut, "/v2/"); if r == "" || r == "/" then "*" else r
  }

  lemma {:induction false} RepoUnique(path: string, a: string, b: string)
    requires RepoOf(path, a) && RepoOf(path, b)
    ensures a == b
  {
    var c :| CutPath(path, c) && a == var r := TrimPrefix(c, "/v2/"); if r == "" || r == "/" then "*" else r;
    var d :| CutPath(path, d) && b == var r := TrimPrefix(d, "/v2/"); if r == "" || r == "/" then "*" else r;
    CutUnique(path, c, d);
  }

  /** `extractRepo`, and the same loop inlined in the Bearer branch. */
  method ExtractRepo(urlPath: string) returns (repo: string)
    ensures RepoOf(urlPath, repo)
  {
    var suffixes := ["/blobs/", "/manifests/", "/tags/", "/referrers/"];
    assert suffixes == ENDPOINTS;
    var cut := urlPath;
    for k := 0 to |suffixes|
      invariant cut == urlPath
      invariant forall j: nat, i: nat | j < k :: !OccursAt(urlPath, ENDPOINTS[j], i)
    {
      var idx := Index(cut, suffixes[k]);
      if idx.Some? {
        cut := urlPath[..idx.value];
        assert CutHere(urlPath, cut, k, idx.value);
        break;
      }
    }
    assert CutPath(urlPath, cut);
    repo := TrimPrefix(cut, "/v2/");
    if repo == "" || repo == "/" {
      repo := "*";
    }
  }

  /** What the Basic branch lets through for a validated principal. */
  ghost predicate BasicAllows(scopes: seq<string>, path: string, verb: string) {
    || path == "/v2/" || path == "/v2/_catalog"
    || exists s, repo :: s in scopes && RepoOf(path, repo) &&
         (s == "*" || ScopeAllows(s, "repository", repo, [RequiredAction(verb)]))
  }

  /** What the Bearer branch lets through for a token with these entries. */
  ghost predicate BearerAllows(access: seq<Access>, path: string, verb: string) {
    || path == "/v2/"
    || exists e, repo :: e in access && RepoOf(path, repo) &&
         (CatalogEntry(e, path) || RepoEntry(e, repo, RequiredAction(verb)))
  }

  predicate CatalogEntry(e: Access, path: string) {
    path == "/v2/_catalog" && e.typ == "registry" && e.name == "catalog" && "*" in e.actions
  }

  predicate RepoEntry(e: Access, repo: string, action: string) {
    e.typ == "repository" && e.name == repo && (action in e.actions || "*" in e.actions)
  }

  method BasicBranch(scopes: seq<string>, path: string, verb: string) returns (authorized: bool)
    ensures authorized <==> BasicAllows(scopes, path, verb)
  {
    var action := RequiredAction(verb);
    var fullRepo := ExtractRepo(path);
    forall r | RepoOf(path, r) ensures r == fullRepo { RepoUnique(path, r, fullRepo); }
    authorized := path == "/v2/" || path == "/v2/_catalog";
    if !authorized {
      for i := 0 to |scopes|
        invariant !authorized
        invariant forall s | s in scopes[..i] :: s != "*" && !ScopeAllows(s, "repository", fullRepo, [action])
      {
        var s := scopes[i];
        assert scopes[..i + 1] == scopes[..i] + [s];
        var m := MatchesScope(s, "repository", fullRepo, [action]);
        if s == "*" || m {
          authorized := true;
          break;
        }
      }
      assert scopes[..|scopes|] == scopes;
    }
  }

  /** The action loop inside the Bearer branch. */
  method AnyAction(actions: seq<string>, action: string, exact: bool) returns (ok: bool)
    ensures ok <==> "*" in actions || (exact && action in actions)
  {
    for i := 0 to |actions|
      invariant "*" !in actions[..i] && (exact ==> action !in actions[..i])
    {
      if (exact && actions[i] == action) || actions[i] == "*" {
        return true;
      }
      assert actions[..i + 1] == actions[..i] + [actions[i]];
    }
    assert actions[..|actions|] == actions;
    return false;
  }

  ghost predicate SomeEntry(access: seq<Access>, path: string, repo: string, action: string) {
    exists e :: e in access && (CatalogEntry(e, path) || RepoEntry(e, repo, action))
  }

  lemma {:induction false} SomeEntrySnoc(access: seq<Access>, e: Access, path: string, repo: string, action: string)
    ensures SomeEntry(access + [e], path, repo, action) <==>
            SomeEntry(access, path, repo, action) || CatalogEntry(e, path) || RepoEntry(e, repo, action)
  {
    assert e in access + [e];
    if SomeEntry(access, path, repo, action) {
      var x :| x in access && (CatalogEntry(x, path) || RepoEntry(x, repo, action));
      assert x in access + [e];
    }
  }

  method BearerBranch(access: seq<Access>, path: string, verb: string) returns (authorized: bool)
    ensures authorized <==> BearerAllows(access, path, verb)
  {
    var action := RequiredAction(verb);
    var fullRepo := ExtractRepo(path);
    forall r | RepoOf(path, r) ensures r == fullRepo { RepoUnique(path, r, fullRepo); }
    authorized := false;
    for i := 0 to |access|
      invariant authorized <==> SomeEntry(access[..i], path, fullRepo, action)
    {
      var e := access[i];
      SomeEntrySnoc(access[..i], e, path, fullRepo, action);
      assert access[..i + 1] == access[..i] + [e];
      if path == "/v2/_catalog" && e.typ == "registry" && e.name == "catalog" {
        var any := AnyAction(e.actions, action, false);
        authorized := authorized || any;
      }
      if e.typ == "repository" && e.name == fullRepo {
        var any := AnyAction(e.actions, action, true);
        authorized := authorized || any;
      }
    }
    assert access[..|access|] == access;
    if path == "/v2/" {
      authorized := true;
    }
  }

  // ------------------------------------------------------------ what verbs need

  /** The methods that write. */
  predicate Writes(verb: string) {
    verb == "POST" || verb == "PUT" || verb == "PATCH" || verb == "DELETE"
  }

  predicate OpenPath(path: string) {
    path == "/v2/" || path == "/v2/_catalog"
  }

  function ScopeOf(repo: string, action: string): string {
    "repository:" + repo + ":" + action
  }

  lemma {:induction false} ScopeParts(repo: string, action: string)
    requires ':' !in repo && ':' !in action
    ensures Split(ScopeOf(repo, action), ':') == ["repository", repo, action]
  {
    ThreeParts("repository", repo, action, ':');
    assert ScopeOf(repo, action) == "repository" + [':'] + (repo + [':'] + action);
  }

  lemma {:induction false} OneTrimmed(action: string)
    requires action in {"pull", "push"}
    ensures Trimmed(action) == {action}
  {
    SplitNone(action, ',');
    TrimFixed(action);
  }

  lemma {:induction false} OneAction(repo: string, action: string, wanted: string)
    requires ':' !in repo && action in {"pull", "push"} && wanted in {"pull", "push"}
    ensures ScopeAllows(ScopeOf(repo, action), "repository", repo, [wanted]) <==> action == wanted
  {
    ScopeParts(repo, action);
    OneTrimmed(action);
    assert wanted in [wanted];
  }

  /** Through Basic auth a pull scope opens a repository to every method but the
      writing ones, a push scope to these alone; some paths are open to all. */
  lemma {:induction false} BasicVerbs(path: string, repo: string, verb: string)
    requires RepoOf(path, repo) && ':' !in repo
    ensures BasicAllows([ScopeOf(repo, "pull")], path, verb) <==> OpenPath(path) || !Writes(verb)
    ensures BasicAllows([ScopeOf(repo, "push")], path, verb) <==> OpenPath(path) || Writes(verb)
  {
    BasicOne(path, repo, verb, "pull");
    BasicOne(path, repo, verb, "push");
  }

  lemma {:induction false} BasicOne(path: string, repo: string, verb: string, action: string)
    requires RepoOf(path, repo) && ':' !in repo && action in {"pull", "push"}
    ensures BasicAllows([ScopeOf(repo, action)], path, verb) <==>
            OpenPath(path) || (Writes(verb) <==> action == "push")
  {
    var scope := ScopeOf(repo, action);
    OneAction(repo, action, RequiredAction(verb));
    assert scope != "*" by { assert scope[0] == 'r'; }
    assert scope in [scope];
    forall r | RepoOf(path, r) ensures r == repo {
      RepoUnique(path, r, repo);
    }
  }

  /** The same of a token with one entry. */
  lemma {:induction false} BearerVerbs(path: string, repo: string, verb: string)
    requires RepoOf(path, repo)
    ensures BearerAllows([Access("repository", repo, ["pull"])], path, verb) <==> path == "/v2/" || !Writes(verb)
    ensures BearerAllows([Access("repository", repo, ["push"])], path, verb) <==> path == "/v2/" || Writes(verb)
  {
    BearerOne(path, repo, verb, "pull");
    BearerOne(path, repo, verb, "push");
  }

  lemma {:induction false} BearerOne(path: string, repo: string, verb: string, action: string)
    requires RepoOf(path, repo) && action in {"pull", "push"}
    ensures BearerAllows([Access("repository", repo, [action])], path, verb) <==>
            path == "/v2/" || (Writes(verb) <==> action == "push")
  {
    var e := Access("repository", repo, [action]);
    assert e in [e] && action in [action];
    forall r | RepoOf(path, r) ensures r == repo {
      RepoUnique(path, r, repo);
    }
  }

  // ------------------------------------------------------------- token grant

  predicate Holds(scopes: seq<string>, requested: string, typ: string, name: string, actions: seq<string>) {
    exists s :: s in scopes && (s == "*" || s == requested || ScopeAllows(s, typ, name, actions))
  }

  /** The scope-grant part of `tokenHandler`; None is the 403 answer. */
  method TokenGrant(scopes: seq<string>, requested: string) returns (granted: Option<seq<Access>>)
    ensures Granted(scopes, requested, granted)
  {
    var hasWildcard := "*" in scopes;
    if requested != "" {
      var parts := Split(requested, ':');
      if |parts| >= 3 {
        var typ, name, actions := parts[0], parts[1], Split(parts[2], ',');
        var authorized := false;
        for i := 0 to |scopes|
          invariant !authorized && !Holds(scopes[..i], requested, typ, name, actions)
        {
          var s := scopes[i];
          assert scopes[..i + 1] == scopes[..i] + [s];
          var m := MatchesScope(s, typ, name, actions);
          if s == "*" || s == requested || m {
            authorized := true;
            break;
          }
        }
        assert scopes[..|scopes|] == scopes;
        if !authorized {
          return None;
        }
        return Some([Access(typ, name, actions)]);
      }
    } else if hasWildcard {
      return Some([Access("repository", "*", ["*"])]);
    }
    return Some([]);
  }

  /** What the token endpoint answers. */
  ghost predicate Granted(scopes: seq<string>, requested: string, granted: Option<seq<Access>>) {
    var parts := Split(requested, ':');
    if requested == "" then
      granted == Some(if "*" in scopes then [Access("repository", "*", ["*"])] else [])
    else if |parts| < 3 then granted == Some([])
    else
      var actions := Split(parts[2], ',');
      if Holds(scopes, requested, parts[0], parts[1], actions)
      then granted == Some([Access(parts[0], parts[1], actions)])
      else granted == None
  }

  /** Whatever covers a list of actions asked for covers each action granted. */
  lemma {:induction false} HoldsEach(scopes: seq<string>, requested: string, action: string)
    requires |Split(requested, ':')| >= 3 && action in {"pull", "push"}
    requires var parts := Split(requested, ':'); Holds(scopes, requested, parts[0], parts[1], Split(parts[2], ','))
    requires var actions := Split(Split(requested, ':')[2], ','); action in actions || "*" in actions
    ensures var parts := Split(requested, ':');
      exists s :: s in scopes && (s == "*" || ScopeAllows(s, parts[0], parts[1], [action]))
  {
    var parts := Split(requested, ':');
    var actions := Split(parts[2], ',');
    var s :| s in scopes && (s == "*" || s == requested || ScopeAllows(s, parts[0], parts[1], actions));
    if s == requested {
      RequestedAllowsItself(requested, action);
    } else if s != "*" {
      AllowsFewerActions(s, parts[0], parts[1], actions, action);
    }
  }

  /** Some scope covers the action on the repository. */
  ghost predicate SomeScope(scopes: seq<string>, repo: string, action: string) {
    exists s :: s in scopes && (s == "*" || ScopeAllows(s, "repository", repo, [action]))
  }

  lemma {:induction false} GrantCovers(scopes: seq<string>, requested: string, access: seq<Access>, e: Access, repo: string, action: string)
    requires Granted(scopes, requested, Some(access)) && action in {"pull", "push"}
    requires e in access && RepoEntry(e, repo, action)
    ensures SomeScope(scopes, repo, action)
  {
    if requested != "" {
      HoldsEach(scopes, requested, action);
    } else {
      assert "*" in scopes;
    }
  }

  /** For every scope list, requested scope, path and method: a request that a
      freshly issued token passes, the same scopes pass through Basic auth. */
  lemma {:induction false} TokenNeverWidens(scopes: seq<string>, requested: string, access: seq<Access>, path: string, verb: string)
    requires Granted(scopes, requested, Some(access))
    requires BearerAllows(access, path, verb)
    ensures BasicAllows(scopes, path, verb)
  {
    if path != "/v2/" && path != "/v2/_catalog" {
      var action := RequiredAction(verb);
      var e, repo :| e in access && RepoOf(path, repo) && (CatalogEntry(e, path) || RepoEntry(e, repo, action));
      GrantCovers(scopes, requested, access, e, repo, action);
    }
  }

  lemma {:induction false} RequestedAllowsItself(requested: string, action: string)
    requires |Split(requested, ':')| >= 3 && action in {"pull", "push"}
    requires var actions := Split(Split(requested, ':')[2], ','); action in actions || "*" in actions
    ensures var parts := Split(requested, ':'); ScopeAllows(requested, parts[0], parts[1], [action])
  {
    var list := Split(requested, ':')[2];
    TrimFixed("*");
    TrimFixed("pull");
    TrimFixed("push");
    if "*" in Split(list, ',') {
      assert TrimSpace("*") in Trimmed(list);
    } else {
      assert TrimSpace(action) in Trimmed(list);
    }
  }
}
