/** `ScopesToAccess` (`internal/auth/token.go`), used for web logins and token
    refresh: what it turns stored scopes into, against what they allow. A `char`
    is a rune. */
module ScopeClaims {
  import opened Text
  import opened Scopes

  // ----------------------------------------------------------- specification

  /** `strings.SplitN(s, ":", 3)`. */
  function SplitThree(s: string): seq<string> {
    var parts := Split(s, ':');
    if |parts| <= 3 then parts else parts[..2] + [Join(parts[2..], ':')]
  }

  /** The non-blank actions, trimmed, in order. */
  function Cleaned(acts: seq<string>): seq<string> {
    if acts == [] then []
    else
      var a := TrimSpace(acts[|acts| - 1]);
      Cleaned(acts[..|acts| - 1]) + if a == "" then [] else [a]
  }

  function ActionsOf(parts: seq<string>): seq<string> {
    if |parts| == 3 && parts[2] != "" && Cleaned(Split(parts[2], ',')) != []
    then Cleaned(Split(parts[2], ','))
    else ["pull"]
  }

  /** The entries one stored scope other than "*" contributes. */
  function EntriesOf(scope: string): seq<Access> {
    var s := TrimSpace(scope);
    var parts := SplitThree(s);
    if s == "" || |parts| < 2 then [] else [Access(parts[0], parts[1], ActionsOf(parts))]
  }

  function AllEntries(scopes: seq<string>): seq<Access> {
    if scopes == [] then [] else AllEntries(scopes[..|scopes| - 1]) + EntriesOf(scopes[|scopes| - 1])
  }

  predicate Star(scope: string) {
    TrimSpace(scope) == "*"
  }

  const ADMIN: seq<Access> := [Access("repository", "*", ["*"])]

  function ToAccess(scopes: seq<string>): seq<Access> {
    if exists s :: s in scopes && Star(s) then ADMIN else AllEntries(scopes)
  }

  // ---------------------------------------------------------------- the code

  lemma {:induction false} CleanedShort(acts: seq<string>)
    ensures |Cleaned(acts)| <= |acts|
  {
    if acts != [] {
      CleanedShort(acts[..|acts| - 1]);
    }
  }

  /** The in-place filter over `acts[:0]`: entries are overwritten while the
      same array is being read, always at or before the position read last. */
  method FilterInPlace(acts: array<string>) returns (n: nat)
    modifies acts
    ensures n <= acts.Length && acts[..n] == Cleaned(old(acts[..]))
  {
    n := 0;
    ghost var was := acts[..];
    for i := 0 to acts.Length
      invariant n <= i && acts[..n] == Cleaned(was[..i])
      invariant acts[i..] == was[i..]
    {
      assert acts[i] == acts[i..][0] == was[i];
      assert was[..i + 1][..i] == was[..i];
      var a := TrimSpace(acts[i]);
      assert acts[i + 1..] == acts[i..][1..] == was[i + 1..];
      if a != "" {
        acts[n] := a;
        assert acts[..n + 1] == acts[..n] + [a];
        n := n + 1;
      }
    }
    assert was[..acts.Length] == was;
  }

  /** The actions of one entry: "pull" unless some are given. */
  method EntryActions(parts: seq<string>) returns (actions: seq<string>)
    ensures actions == ActionsOf(parts)
  {
    actions := ["pull"];
    if |parts| == 3 && parts[2] != "" {
      var list := Split(parts[2], ',');
      var acts := new string[|list|](k requires 0 <= k < |list| => list[k]);
      assert acts[..] == list;
      var n := FilterInPlace(acts);
      if n > 0 {
        actions := acts[..n];
      }
    }
  }

  lemma {:induction false} EntriesStep(scopes: seq<string>, i: nat)
    requires i < |scopes|
    ensures AllEntries(scopes[..i + 1]) == AllEntries(scopes[..i]) + EntriesOf(scopes[i])
    ensures forall s | s in scopes[..i + 1] :: s in scopes[..i] || s == scopes[i]
  {
    assert scopes[..i + 1] == scopes[..i] + [scopes[i]];
    assert scopes[..i + 1][..i] == scopes[..i];
  }

  /** `ScopesToAccess`. */
  method ScopesToAccess(scopes: seq<string>) returns (access: seq<Access>)
    ensures access == ToAccess(scopes)
  {
    access := [];
    for i := 0 to |scopes|
      invariant access == AllEntries(scopes[..i])
      invariant forall s | s in scopes[..i] :: !Star(s)
    {
      EntriesStep(scopes, i);
      var s := TrimSpace(scopes[i]);
      if s == "" {
        continue;
      }
      if s == "*" {
        assert Star(scopes[i]);
        return ADMIN;
      }
      var parts := SplitThree(s);
      if |parts| < 2 {
        continue;
      }
      var actions := EntryActions(parts);
      access := access + [Access(parts[0], parts[1], actions)];
    }
    assert scopes[..|scopes|] == scopes;
  }

  // ------------------------------------------------------------- no widening

  lemma {:induction false} CleanedMembers(acts: seq<string>, a: string)
    ensures a in Cleaned(acts) <==> a != "" && exists x :: x in acts && TrimSpace(x) == a
  {
    if acts != [] {
      var front, last := acts[..|acts| - 1], acts[|acts| - 1];
      assert acts == front + [last];
      CleanedMembers(front, a);
    }
  }

  lemma {:induction false} EntryFromScope(scopes: seq<string>, e: Access)
    requires e in AllEntries(scopes)
    ensures exists s :: s in scopes && e in EntriesOf(s)
  {
    var front, last := scopes[..|scopes| - 1], scopes[|scopes| - 1];
    if e in EntriesOf(last) {
      assert last in scopes;
    } else {
      EntryFromScope(front, e);
      var s :| s in front && e in EntriesOf(s);
      assert s in scopes;
    }
  }

  /** An action list is blank when no item is left after trimming. */
  predicate BlankList(list: string) {
    forall a | a in Split(list, ',') :: TrimSpace(a) == ""
  }

  /** When a stored scope claims no more than it allows: it is not a padded "*";
      and as a repository scope it has no leading blank, no blank around a name
      without actions, no blank action list, and "*" among its actions if more
      colons follow. */
  predicate Keeps(scope: string) {
    var s := TrimSpace(scope);
    var parts := Split(s, ':');
    && (s == "*" ==> scope == "*")
    && (|parts| >= 2 && parts[0] == "repository" ==>
          && (scope != "" ==> !IsSpace(scope[0]))
          && (|parts| == 2 ==> scope == s)
          && (|parts| == 3 ==> !BlankList(parts[2]))
          && (|parts| >= 4 ==> "*" in Trimmed(parts[2])))
  }

  /** No surrounding blanks, at most two colons, and a non-blank action list
      whenever there is one. */
  predicate WellFormed(scope: string) {
    var parts := Split(scope, ':');
    TrimSpace(scope) == scope && |parts| <= 3 && (|parts| == 3 ==> !BlankList(parts[2]))
  }

  lemma {:induction false} WellFormedKeeps(scope: string)
    requires WellFormed(scope)
    ensures Keeps(scope)
  {
    var w, z := TrimCut(scope);
  }

  lemma {:induction false} BlankEmpty()
    ensures BlankList("")
  {
    assert Split("", ',') == [""];
  }

  lemma {:induction false} BlankCleaned(list: string)
    ensures BlankList(list) <==> Cleaned(Split(list, ',')) == []
  {
    var items := Split(list, ',');
    if Cleaned(items) != [] {
      CleanedMembers(items, Cleaned(items)[0]);
    } else {
      forall a | a in items ensures TrimSpace(a) == "" {
        CleanedMembers(items, TrimSpace(a));
      }
    }
  }

  /** A scope never yields more than it allows. */
  ghost predicate GrantsNoMore(scope: string) {
    forall e, repo, action | e in ToAccess([scope]) && RepoEntry(e, repo, action) ::
      scope == "*" || ScopeAllows(scope, "repository", repo, [action])
  }

  lemma {:induction false} SingleScope(scope: string)
    ensures ToAccess([scope]) == if TrimSpace(scope) == "*" then ADMIN else EntriesOf(scope)
  {
    assert scope in [scope];
    assert [scope][..0] == [];
    assert AllEntries([scope]) == AllEntries([]) + EntriesOf(scope);
  }

  /** The parts the matcher sees are those of the trimmed scope, with the blanks
      still on the first and the last. */
  ghost predicate Padded(raw: seq<string>, parts: seq<string>, w: string, z: string) {
    && |raw| == |parts|
    && (|parts| >= 2 ==>
          && raw[0] == w + parts[0] && raw[|parts| - 1] == parts[|parts| - 1] + z
          && forall i | 0 < i < |parts| - 1 :: raw[i] == parts[i])
  }

  lemma {:induction false} SplitPadded(w: string, s: string, z: string)
    requires ':' !in w && ':' !in z
    ensures Padded(Split(w + s + z, ':'), Split(s, ':'), w, z)
  {
    SplitNone(w, ':');
    SplitNone(z, ':');
    SplitGlue(w, s, ':');
    SplitGlue(w + s, z, ':');
    assert [z][1..] == [];
  }

  lemma {:induction false} RawParts(scope: string) returns (w: string, z: string)
    ensures var s := TrimSpace(scope);
      && scope == w + s + z && Blank(w) && Blank(z) && (s != "" ==> scope != "" && (w != "" <==> IsSpace(scope[0])))
      && Padded(Split(scope, ':'), Split(s, ':'), w, z)
  {
    w, z := TrimCut(scope);
    var s := TrimSpace(scope);
    SplitPadded(w, s, z);
    if s != "" {
      assert scope[0] == if w == "" then s[0] else w[0];
    }
  }

  lemma {:induction false} TrimmedTail(list: string, z: string)
    requires Blank(z)
    ensures Trimmed(list + z) == Trimmed(list)
  {
    var items := Split(list, ',');
    var n := |items| - 1;
    assert ',' !in z;
    SplitNone(z, ',');
    SplitGlue(list, z, ',');
    assert [z][1..] == [] && Split(list + z, ',') == items[..n] + [items[n] + z];
    TrimTail(items[n], z);
    assert items == items[..n] + [items[n]];
    TrimmedSnoc(items[..n], items[n]);
    TrimmedSnoc(items[..n], items[n] + z);
  }

  /** Everything after the second colon. */
  function Third(parts: seq<string>): string {
    if |parts| > 2 then Join(parts[2..], ':') else ""
  }

  /** The one entry a scope with a colon contributes. */
  function EntryOf(parts: seq<string>): Access
    requires |parts| >= 2
  {
    Access(parts[0], parts[1], if BlankList(Third(parts)) then ["pull"] else Cleaned(Split(Third(parts), ',')))
  }

  lemma {:induction false} EntryShape(scope: string)
    requires |Split(TrimSpace(scope), ':')| >= 2
    ensures EntriesOf(scope) == [EntryOf(Split(TrimSpace(scope), ':'))] && ToAccess([scope]) == EntriesOf(scope)
  {
    var s := TrimSpace(scope);
    var parts := Split(s, ':');
    assert s != "" by { assert Split("", ':') == [""]; }
    assert s != "*" by { SplitNone("*", ':'); }
    SingleScope(scope);
    ActionsShape(s);
  }

  lemma {:induction false} ActionsShape(s: string)
    requires |Split(s, ':')| >= 2
    ensures var parts := Split(s, ':');
      && SplitThree(s)[..2] == parts[..2]
      && ActionsOf(SplitThree(s)) == EntryOf(parts).actions
  {
    var parts := Split(s, ':');
    BlankEmpty();
    BlankCleaned(Third(parts));
    if |parts| == 3 {
      assert parts[2..] == [parts[2]];
    } else if |parts| > 3 {
      assert SplitThree(s)[2] == Third(parts);
    }
  }

  /** Exactly what a stored scope claims: "*" everything, no colon nothing, and
      otherwise the type, the name and the actions of the list, each without its
      blanks; "pull" if no action is given. */
  lemma {:induction false} ClaimsExactly(scope: string)
    ensures var s := TrimSpace(scope); var parts := Split(s, ':');
      && (s == "*" ==> ToAccess([scope]) == [Access("repository", "*", ["*"])])
      && (s != "*" && |parts| == 1 ==> ToAccess([scope]) == [])
      && (|parts| >= 2 ==>
            && |ToAccess([scope])| == 1
            && var e, list := ToAccess([scope])[0], if |parts| == 2 then "" else Join(parts[2..], ':');
               && e.typ == parts[0] && e.name == parts[1]
               && (BlankList(list) ==> e.actions == ["pull"])
               && (!BlankList(list) ==>
                     forall a :: a in e.actions <==> a != "" && exists x :: x in Split(list, ',') && TrimSpace(x) == a))
  {
    var s := TrimSpace(scope);
    var parts := Split(s, ':');
    SingleScope(scope);
    if |parts| >= 2 {
      EntryShape(scope);
      assert s != "*" by { SplitNone("*", ':'); }
      forall a ensures a in Cleaned(Split(Third(parts), ',')) <==>
        a != "" && exists x :: x in Split(Third(parts), ',') && TrimSpace(x) == a
      {
        CleanedMembers(Split(Third(parts), ','), a);
      }
    }
  }

  /** Blanks before the type: the matcher knows no such type. */
  lemma {:induction false} LeadingBlankWidens(scope: string)
    requires scope != "" && IsSpace(scope[0]) && |Split(TrimSpace(scope), ':')| >= 2
    ensures var parts := Split(TrimSpace(scope), ':');
      && EntriesOf(scope) == [EntryOf(parts)] && EntryOf(parts).actions != []
      && forall name, actions :: !ScopeAllows(scope, parts[0], name, actions)
  {
    var w, z := RawParts(scope);
    var s := TrimSpace(scope);
    var parts := Split(s, ':');
    EntryShape(scope);
    BlankCleaned(Third(parts));
    assert s != "" by { assert Split("", ':') == [""]; }
    assert |w + parts[0]| > |parts[0]|;
  }

  /** What an entry grants on its repository, the scope allows. */
  ghost predicate Covers(scope: string, e: Access) {
    forall action | action in e.actions || "*" in e.actions :: ScopeAllows(scope, "repository", e.name, [action])
  }

  lemma {:induction false} GrantsByEntry(scope: string, e: Access)
    requires ToAccess([scope]) == [e] && scope != "*"
    ensures GrantsNoMore(scope) <==> (e.typ == "repository" ==> Covers(scope, e))
  {
    assert e in [e];
    if e.typ == "repository" && GrantsNoMore(scope) {
      forall action | action in e.actions || "*" in e.actions ensures ScopeAllows(scope, "repository", e.name, [action]) {
        assert RepoEntry(e, e.name, action);
      }
    }
  }

  /** A repository scope as the matcher splits it. */
  ghost predicate RawRepository(scope: string, parts: seq<string>, z: string) {
    var raw := Split(scope, ':');
    && |raw| == |parts| >= 2 && raw[0] == "repository" && Blank(z)
    && raw[|parts| - 1] == parts[|parts| - 1] + z
    && forall i | 0 < i < |parts| - 1 :: raw[i] == parts[i]
  }

  lemma {:induction false} BlankEnd(name: string)
    requires name != "" && IsSpace(name[|name| - 1])
    ensures name != "*" && !HasSuffix(name, "/*")
  {
    if |name| >= 2 {
      assert name[|name| - 2..][1] == name[|name| - 1] && "/*"[1] == '*';
    }
  }

  lemma {:induction false} TwoParts(scope: string, parts: seq<string>, z: string)
    requires RawRepository(scope, parts, z) && |parts| == 2
    ensures Covers(scope, EntryOf(parts)) <==> z == ""
  {
    BlankEmpty();
    var e := EntryOf(parts);
    if z == "" {
      assert parts[1] + z == parts[1];
    } else {
      var name := parts[1] + z;
      assert name[|name| - 1] == z[|z| - 1];
      BlankEnd(name);
      assert !NameMatches(name, parts[1]);
      assert "pull" in e.actions && !ScopeAllows(scope, "repository", e.name, ["pull"]);
    }
  }

  lemma {:induction false} ThreeParts(scope: string, parts: seq<string>, z: string)
    requires RawRepository(scope, parts, z) && |parts| == 3
    ensures Covers(scope, EntryOf(parts)) <==> !BlankList(parts[2])
  {
    assert parts[2..] == [parts[2]] && Third(parts) == parts[2];
    TrimmedTail(parts[2], z);
    var e := EntryOf(parts);
    var list := Split(parts[2], ',');
    if BlankList(parts[2]) {
      assert Trimmed(parts[2]) <= {""};
      assert "pull" in ["pull"] && !ScopeAllows(scope, "repository", e.name, ["pull"]);
    } else {
      forall action | action in e.actions || "*" in e.actions ensures ScopeAllows(scope, "repository", e.name, [action]) {
        CleanedMembers(list, action);
        CleanedMembers(list, "*");
      }
    }
  }

  lemma {:induction false} MoreParts(scope: string, parts: seq<string>, z: string)
    requires RawRepository(scope, parts, z) && |parts| >= 4 && ':' !in parts[2]
    ensures Covers(scope, EntryOf(parts)) <==> "*" in Trimmed(parts[2])
  {
    var e := EntryOf(parts);
    if "*" !in Trimmed(parts[2]) {
      var action := StraddlingAction(parts);
      NoColon(parts[2], action);
      assert action in [action] && !ScopeAllows(scope, "repository", e.name, [action]);
    }
  }

  /** Past a third colon some action has a colon in it. */
  lemma {:induction false} StraddlingAction(parts: seq<string>) returns (action: string)
    requires |parts| >= 4
    ensures ':' in action && action in EntryOf(parts).actions
  {
    var third := Third(parts);
    assert ':' in third;
    var item := SplitKeeps(third, ',', ':');
    TrimKeeps(item, ':');
    action := TrimSpace(item);
    CleanedMembers(Split(third, ','), action);
    BlankCleaned(third);
  }

  lemma {:induction false} NoColon(list: string, action: string)
    requires ':' !in list && ':' in action
    ensures action !in Trimmed(list)
  {
    SplitParts(list, ',');
    forall x | x in Split(list, ',') ensures TrimSpace(x) != action {
      TrimKeeps(x, ':');
    }
  }

  /** For every stored scope: it claims no more than it allows exactly when
      `Keeps` holds of it. */
  lemma {:induction false} WidensExactly(scope: string)
    ensures GrantsNoMore(scope) <==> Keeps(scope)
  {
    var s := TrimSpace(scope);
    var parts := Split(s, ':');
    if |parts| == 1 {
      NoEntry(scope);
    } else {
      EntryShape(scope);
      assert scope != "*" && s != "*" by {
        SplitNone("*", ':');
        TrimFixed("*");
      }
      GrantsByEntry(scope, EntryOf(parts));
      if parts[0] == "repository" {
        RepositoryScope(scope);
      }
    }
  }

  /** A scope without a colon claims nothing, unless it is a star. */
  lemma {:induction false} NoEntry(scope: string)
    requires |Split(TrimSpace(scope), ':')| == 1
    ensures GrantsNoMore(scope) <==> (TrimSpace(scope) == "*" ==> scope == "*")
  {
    SingleScope(scope);
    if TrimSpace(scope) == "*" && scope != "*" {
      var w, z := RawParts(scope);
      var e := ADMIN[0];
      assert e in ToAccess([scope]) && RepoEntry(e, "*", "pull");
      assert !ScopeAllows(scope, "repository", "*", ["pull"]);
    }
  }

  lemma {:induction false} RepositoryScope(scope: string)
    requires var parts := Split(TrimSpace(scope), ':'); |parts| >= 2 && parts[0] == "repository"
    ensures Covers(scope, EntryOf(Split(TrimSpace(scope), ':'))) <==> Keeps(scope)
  {
    var s := TrimSpace(scope);
    var parts := Split(s, ':');
    assert s != "*" by { SplitNone("*", ':'); }
    if scope != "" && IsSpace(scope[0]) {
      LeadingBlankWidens(scope);
      var e := EntryOf(parts);
      assert e.actions[0] in e.actions && !ScopeAllows(scope, "repository", e.name, [e.actions[0]]);
    } else {
      var w, z := RawParts(scope);
      assert s != "" by { assert Split("", ':') == [""]; }
      assert w + parts[0] == parts[0] && scope == s + z;
      SplitParts(s, ':');
      if |parts| == 2 {
        TwoParts(scope, parts, z);
      } else if |parts| == 3 {
        ThreeParts(scope, parts, z);
      } else {
        MoreParts(scope, parts, z);
      }
    }
  }

  /** The documented promise: what `ScopesToAccess` grants on a repository, the
      stored scopes themselves allow, if each of them keeps to it. */
  lemma {:induction false} ClaimsNeverWiden(scopes: seq<string>, e: Access, repo: string, action: string)
    requires forall s | s in scopes :: Keeps(s)
    requires e in ToAccess(scopes) && RepoEntry(e, repo, action)
    ensures exists s :: s in scopes && (s == "*" || ScopeAllows(s, "repository", repo, [action]))
  {
    if s :| s in scopes && Star(s) {
      assert s == "*";
    } else {
      EntryFromScope(scopes, e);
      var s :| s in scopes && e in EntriesOf(s);
      WidensExactly(s);
      SingleScope(s);
      assert e in ToAccess([s]);
    }
  }

  /** For any type: a third colon hides an action from `matchesScope` that the
      split into three parts still finds. */
  lemma {:induction false} ThirdColonWidens(typ: string, name: string, x: string, y: string, action: string)
    requires ':' !in typ && ':' !in name && ':' !in x && ':' !in y && ':' !in action
    requires ',' !in x && ',' !in action
    requires typ != "" && !IsSpace(typ[0])
    requires action != "" && !IsSpace(action[0]) && !IsSpace(action[|action| - 1])
    requires TrimSpace(x) !in {"*", action}
    ensures var scope := typ + ":" + (name + ":" + (x + ":" + (y + "," + action)));
      && (exists e :: e in EntriesOf(scope) && e.typ == typ && e.name == name && action in e.actions)
      && !ScopeAllows(scope, typ, name, [action])
  {
    var tail := y + "," + action;
    var third := x + ":" + tail;
    var scope := typ + ":" + (name + ":" + third);
    FourParts(typ, name, x, tail);
    TrimFixed(action);
    HiddenAction(x, y, action);
    assert TrimSpace(scope) == scope by { TrimFixed(scope); }
    var e := Access(typ, name, ActionsOf([typ, name, third]));
    assert EntriesOf(scope) == [e] && e in [e];
    assert Trimmed(x) == {TrimSpace(x)} by { SplitNone(x, ','); }
    assert action in [action];
  }

  lemma {:induction false} FourParts(typ: string, name: string, x: string, tail: string)
    requires ':' !in typ && ':' !in name && ':' !in x && ':' !in tail
    ensures var scope := typ + ":" + (name + ":" + (x + ":" + tail));
      Split(scope, ':') == [typ, name, x, tail] && SplitThree(scope) == [typ, name, x + ":" + tail]
  {
    SplitNone(typ, ':');
    SplitNone(name, ':');
    SplitNone(x, ':');
    SplitNone(tail, ':');
    SplitConcat(x, tail, ':');
    SplitConcat(name, x + ":" + tail, ':');
    SplitConcat(typ, name + ":" + (x + ":" + tail), ':');
    var parts := [typ, name, x, tail];
    assert [typ] + ([name] + ([x] + [tail])) == parts;
    assert parts[2..] == [x, tail] && [x, tail][1..] == [tail];
    assert Join([x, tail], ':') == x + ":" + Join([tail], ':') == x + ":" + tail;
    assert parts[..2] + [x + ":" + tail] == [typ, name, x + ":" + tail];
  }

  lemma {:induction false} HiddenAction(x: string, y: string, action: string)
    requires action != "" && TrimSpace(action) == action && ',' !in action
    ensures var third := x + ":" + (y + "," + action);
      third != "" && action in Cleaned(Split(third, ','))
  {
    var third := x + ":" + (y + "," + action);
    assert third == (x + ":" + y) + "," + action;
    SplitConcat(x + ":" + y, action, ',');
    SplitNone(action, ',');
    var items := Split(third, ',');
    assert items[|items| - 1] == action && action in items;
    CleanedMembers(items, action);
  }
}
