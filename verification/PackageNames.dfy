/** How the typosquatting check normalises a package name
    (`internal/supplychain/validators.go`). */
module PackageNames {
  import opened Text

  /** `strings.ReplaceAll` for a non-empty pattern, left to right. */
  function ReplaceAll(s: string, pattern: string, replacement: string): string
    requires pattern != ""
  {
    if |s| < |pattern| then s
    else if s[..|pattern|] == pattern then replacement + ReplaceAll(s[|pattern|..], pattern, replacement)
    else [s[0]] + ReplaceAll(s[1..], pattern, replacement)
  }

  /** The three replacements of `Check`. */
  function Normalized(name: string): string {
    ReplaceAll(ReplaceAll(ReplaceAll(name, "rn", "m"), "-", ""), "_", "")
  }

  // ------------------------------------------------------ what replacing means

  /** No occurrence of p begins within u. */
  ghost predicate NoneWithin(u: string, p: string, v: string) {
    forall j: nat | j < |u| :: !OccursAt(u + p + v, p, j)
  }

  lemma {:induction false} NoneWithinTail(u: string, p: string, v: string)
    requires u != "" && NoneWithin(u, p, v)
    ensures NoneWithin(u[1..], p, v) && !OccursAt(u + p + v, p, 0) && (u + p + v)[1..] == u[1..] + p + v
  {
    var t := u + p + v;
    assert t[1..] == u[1..] + p + v;
    forall j: nat | j < |u| - 1 ensures !OccursAt(u[1..] + p + v, p, j) {
      assert !OccursAt(t, p, j + 1);
      if j + 1 + |p| <= |t| {
        assert t[j + 1..j + 1 + |p|] == t[1..][j..j + |p|];
      }
    }
  }

  lemma {:induction false} ReplaceSkip(s: string, p: string, x: string)
    requires s != "" && p != "" && !OccursAt(s, p, 0)
    ensures ReplaceAll(s, p, x) == [s[0]] + ReplaceAll(s[1..], p, x)
  {
    if |s| < |p| {
      assert [s[0]] + s[1..] == s;
    }
  }

  lemma {:induction false} ReplaceHere(p: string, v: string, x: string)
    requires p != ""
    ensures ReplaceAll(p + v, p, x) == x + ReplaceAll(v, p, x)
  {
    assert (p + v)[..|p|] == p && (p + v)[|p|..] == v;
  }

  /** Up to the first occurrence nothing changes, there the replacement stands,
      and the rest is treated alike ... */
  lemma {:induction false} ReplaceFirst(u: string, p: string, v: string, x: string)
    requires p != "" && NoneWithin(u, p, v)
    ensures ReplaceAll(u + p + v, p, x) == u + x + ReplaceAll(v, p, x)
    decreases u
  {
    if u == "" {
      ReplaceHere(p, v, x);
      assert u + p + v == p + v && u + x == x;
    } else {
      NoneWithinTail(u, p, v);
      ReplaceFirst(u[1..], p, v, x);
      ReplaceSkip(u + p + v, p, x);
      Prepend(u, x, ReplaceAll(v, p, x));
    }
  }

  lemma {:induction false} Prepend(u: string, x: string, b: string)
    requires u != ""
    ensures [u[0]] + (u[1..] + x + b) == u + x + b
  {
  }

  /** ... and without an occurrence nothing changes. */
  lemma {:induction false} ReplaceNone(s: string, p: string, x: string)
    requires p != "" && forall i: nat :: !OccursAt(s, p, i)
    ensures ReplaceAll(s, p, x) == s
    decreases s
  {
    if |s| >= |p| {
      NoneInTail(s, p);
      ReplaceNone(s[1..], p, x);
      ReplaceSkip(s, p, x);
    }
  }

  lemma {:induction false} NoneInTail(s: string, p: string)
    requires s != "" && forall i: nat :: !OccursAt(s, p, i)
    ensures forall i: nat :: !OccursAt(s[1..], p, i)
  {
    forall i: nat ensures !OccursAt(s[1..], p, i) {
      assert !OccursAt(s, p, i + 1);
      if i + 1 + |p| <= |s| {
        assert s[i + 1..i + 1 + |p|] == s[1..][i..i + |p|];
      }
    }
  }

  // --------------------------------------------------------------- normal form

  predicate StartsRn(name: string) {
    |name| >= 2 && name[0] == 'r' && name[1] == 'n'
  }

  function Kept(c: char): string {
    if c == '-' || c == '_' then "" else [c]
  }

  /** The normal form in one pass: "rn" is read as "m", hyphens and underscores
      go, everything else stays. */
  function NormalName(name: string): string {
    if name == "" then ""
    else if StartsRn(name) then "m" + NormalName(name[2..])
    else Kept(name[0]) + NormalName(name[1..])
  }

  lemma {:induction false} RemoveCons(c: char, t: string, d: char)
    ensures ReplaceAll([c] + t, [d], "") == (if c == d then "" else [c]) + ReplaceAll(t, [d], "")
  {
    var s := [c] + t;
    assert s[..1] == [c] && s[1..] == t;
  }

  /** Removing hyphens, then underscores, one character at a time. */
  lemma {:induction false} RemoveBoth(c: char, t: string)
    ensures ReplaceAll(ReplaceAll([c] + t, "-", ""), "_", "") == Kept(c) + ReplaceAll(ReplaceAll(t, "-", ""), "_", "")
  {
    var rest := ReplaceAll(t, "-", "");
    RemoveCons(c, t, '-');
    assert "" + rest == rest;
    RemoveCons(c, rest, '_');
    assert "" + ReplaceAll(rest, "_", "") == ReplaceAll(rest, "_", "");
  }

  lemma {:induction false} MergeHead(name: string)
    requires name != ""
    ensures var r := if StartsRn(name) then ['m'] + ReplaceAll(name[2..], "rn", "m") else [name[0]] + ReplaceAll(name[1..], "rn", "m");
      ReplaceAll(name, "rn", "m") == r
  {
    if StartsRn(name) {
      assert name[..2] == "rn";
    } else if |name| >= 2 {
      assert name[..2][0] == name[0] && name[..2][1] == name[1];
    } else {
      assert name[1..] == "" && [name[0]] == name;
    }
  }

  /** The three replacements, one after the other, give the normal form. */
  lemma {:induction false} NormalizedIsNormal(name: string)
    ensures Normalized(name) == NormalName(name)
    decreases |name|
  {
    if name != "" {
      MergeHead(name);
      if StartsRn(name) {
        NormalizedIsNormal(name[2..]);
        RemoveBoth('m', ReplaceAll(name[2..], "rn", "m"));
      } else {
        NormalizedIsNormal(name[1..]);
        RemoveBoth(name[0], ReplaceAll(name[1..], "rn", "m"));
      }
    }
  }

  /** No normal form has a hyphen or an underscore ... */
  lemma {:induction false} NormalClean(name: string)
    ensures '-' !in NormalName(name) && '_' !in NormalName(name)
    decreases |name|
  {
    if name != "" {
      NormalClean(if StartsRn(name) then name[2..] else name[1..]);
    }
  }

  /** ... a name without them and without "rn" is its own normal form ... */
  lemma {:induction false} NormalFixed(name: string)
    requires '-' !in name && '_' !in name && forall i: nat :: !OccursAt(name, "rn", i)
    ensures NormalName(name) == name
  {
    if name != "" {
      assert !OccursAt(name, "rn", 0);
      assert |name| >= 2 ==> name[0..2] != "rn";
      assert name[0] in name && forall c | c in name[1..] :: c in name;
      NoneInTail(name, "rn");
      NormalFixed(name[1..]);
    }
  }

  /** ... and the first "rn" becomes "m". */
  lemma {:induction false} NormalFirst(u: string, v: string)
    requires NoneWithin(u, "rn", v)
    ensures NormalName(u + "rn" + v) == NormalName(u) + "m" + NormalName(v)
    decreases u
  {
    var t := u + "rn" + v;
    if u == "" {
      assert t == "rn" + v && t[2..] == v && StartsRn(t);
      assert "" + "m" == "m";
    } else {
      NoneWithinTail(u, "rn", v);
      NormalFirst(u[1..], v);
      assert !StartsRn(t) by { assert t[0..2] != "rn"; }
      assert !StartsRn(u) by { assert |u| >= 2 ==> u[0] == t[0] && u[1] == t[1]; }
    }
  }
}
