/** The parts of Go's `strings` package the registry relies on. A `char` is one
    rune of valid UTF-8 wherever text is trimmed (scopes, SQL) and one byte
    elsewhere; every other function here means the same for both. */
module Text {

  /** `unicode.IsSpace`. */
  predicate IsSpace(c: char) {
    || c in {'\t', '\n', '\U{000B}', '\U{000C}', '\r', ' ', '\U{0085}', '\U{00A0}', '\U{1680}'}
    || '\U{2000}' <= c <= '\U{200A}'
    || c in {'\U{2028}', '\U{2029}', '\U{202F}', '\U{205F}', '\U{3000}'}
  }

  predicate HasPrefix(s: string, p: string) {
    |p| <= |s| && s[..|p|] == p
  }

  predicate HasSuffix(s: string, p: string) {
    |p| <= |s| && s[|s| - |p|..] == p
  }

  predicate OccursAt(s: string, sub: string, i: nat) {
    i + |sub| <= |s| && s[i..i + |sub|] == sub
  }

  function TrimPrefix(s: string, p: string): string {
    if HasPrefix(s, p) then s[|p|..] else s
  }

  function TrimSuffix(s: string, p: string): string {
    if HasSuffix(s, p) then s[..|s| - |p|] else s
  }

  function TrimLeft(s: string): string {
    if s != "" && IsSpace(s[0]) then TrimLeft(s[1..]) else s
  }

  function TrimRight(s: string): string {
    if s != "" && IsSpace(s[|s| - 1]) then TrimRight(s[..|s| - 1]) else s
  }

  function TrimSpace(s: string): string {
    TrimRight(TrimLeft(s))
  }

  /** `strings.Split` with a one-byte separator. */
  function Split(s: string, sep: char): (parts: seq<string>)
    ensures |parts| >= 1
  {
    if s == "" then [""]
    else
      var rest := Split(s[1..], sep);
      if s[0] == sep then [""] + rest
      else [[s[0]] + rest[0]] + rest[1..]
  }

  /** `strings.Join` with a one-byte separator. */
  function Join(parts: seq<string>, sep: char): string {
    if parts == [] then ""
    else if |parts| == 1 then parts[0]
    else parts[0] + [sep] + Join(parts[1..], sep)
  }

  lemma {:induction false} SplitParts(s: string, sep: char)
    ensures forall p | p in Split(s, sep) :: sep !in p
    ensures forall p, c | p in Split(s, sep) && c in p :: c in s
  {
    if s != "" {
      SplitParts(s[1..], sep);
    }
  }

  /** A string without the separator is its own single part. */
  lemma {:induction false} SplitNone(s: string, sep: char)
    requires sep !in s
    ensures Split(s, sep) == [s]
  {
    if s != "" {
      SplitNone(s[1..], sep);
      assert [s[0]] + s[1..] == s;
    }
  }

  lemma {:induction false} SplitConcat(a: string, b: string, sep: char)
    ensures Split(a + [sep] + b, sep) == Split(a, sep) + Split(b, sep)
  {
    var t := a + [sep] + b;
    if a == "" {
      assert t[1..] == b;
    } else {
      assert t[0] == a[0] && t[1..] == a[1..] + [sep] + b;
      SplitConcat(a[1..], b, sep);
      HeadConcat(a[0], Split(a[1..], sep), Split(b, sep));
    }
  }

  lemma {:induction false} HeadConcat(c: char, x: seq<string>, y: seq<string>)
    requires x != []
    ensures [""] + (x + y) == ([""] + x) + y
    ensures [[c] + (x + y)[0]] + (x + y)[1..] == ([[c] + x[0]] + x[1..]) + y
  {
  }

  lemma {:induction false} ThreeParts(a: string, b: string, c: string, sep: char)
    requires sep !in a && sep !in b && sep !in c
    ensures Split(a + [sep] + (b + [sep] + c), sep) == [a, b, c]
  {
    SplitNone(a, sep);
    SplitNone(b, sep);
    SplitNone(c, sep);
    SplitConcat(b, c, sep);
    SplitConcat(a, b + [sep] + c, sep);
    assert [a] + ([b] + [c]) == [a, b, c];
  }

  /** The parts of `a` and `b` with the last of `a` glued to the first of `b`. */
  function Glue(x: seq<string>, y: seq<string>): seq<string>
    requires x != [] && y != []
  {
    x[..|x| - 1] + [x[|x| - 1] + y[0]] + y[1..]
  }

  lemma {:induction false} SplitGlue(a: string, b: string, sep: char)
    ensures Split(a + b, sep) == Glue(Split(a, sep), Split(b, sep))
  {
    var y := Split(b, sep);
    if a == "" {
      assert a + b == b && "" + y[0] == y[0];
      assert [y[0]] + y[1..] == y;
    } else {
      assert (a + b)[1..] == a[1..] + b;
      SplitGlue(a[1..], b, sep);
      GlueHead(a[0], Split(a[1..], sep), y);
    }
  }

  lemma {:induction false} GlueHead(c: char, w: seq<string>, y: seq<string>)
    requires w != [] && y != []
    ensures [""] + Glue(w, y) == Glue([""] + w, y)
    ensures [[c] + Glue(w, y)[0]] + Glue(w, y)[1..] == Glue([[c] + w[0]] + w[1..], y)
  {
    if |w| == 1 {
      assert [c] + (w[0] + y[0]) == ([c] + w[0]) + y[0];
    }
  }

  lemma {:induction false} SplitJoin(parts: seq<string>, sep: char)
    requires parts != []
    requires forall p | p in parts :: sep !in p
    ensures Split(Join(parts, sep), sep) == parts
  {
    SplitNone(parts[0], sep);
    if |parts| > 1 {
      SplitJoin(parts[1..], sep);
      SplitConcat(parts[0], Join(parts[1..], sep), sep);
      assert [parts[0]] + parts[1..] == parts;
    }
  }

  lemma {:induction false} JoinSplit(s: string, sep: char)
    ensures Join(Split(s, sep), sep) == s
  {
    if s != "" {
      var rest := Split(s[1..], sep);
      JoinSplit(s[1..], sep);
      if s[0] == sep {
        assert ([""] + rest)[1..] == rest;
      } else {
        assert ([[s[0]] + rest[0]] + rest[1..])[1..] == rest[1..];
      }
    }
  }

  lemma {:induction false} JoinConcat(a: seq<string>, b: seq<string>, sep: char)
    requires a != [] && b != []
    ensures Join(a + b, sep) == Join(a, sep) + [sep] + Join(b, sep)
  {
    assert (a + b)[1..] == a[1..] + b;
    if |a| > 1 {
      JoinConcat(a[1..], b, sep);
    }
  }

  /** The first part ends at the first separator. */
  lemma {:induction false} SplitFirst(s: string, k: nat, sep: char)
    requires k <= |s| && sep !in s[..k]
    requires k == |s| || s[k] == sep
    ensures var rest := Split(s[k..], sep);
      rest[0] == "" && Split(s, sep) == [s[..k]] + rest[1..]
  {
    if k == 0 {
      assert s[k..] == s;
    } else {
      assert s[1..][..k - 1] == s[1..k];
      forall c | c in s[1..k] ensures c in s[..k] {}
      assert s[0] in s[..k];
      SplitFirst(s[1..], k - 1, sep);
      assert s[1..][k - 1..] == s[k..];
      assert [s[0]] + s[1..k] == s[..k];
    }
  }

  /** Two strings that agree around their first separator agree in both halves. */
  lemma {:induction false} FirstSeparator(a: string, b: string, x: string, y: string, sep: char)
    requires sep !in a && sep !in x
    requires a + [sep] + b == x + [sep] + y
    ensures a == x && b == y
  {
    var s, t := a + [sep] + b, x + [sep] + y;
    assert s[|a|] == sep && t[|x|] == sep;
    assert |a| == |x|;
    assert s[..|a|] == a && t[..|x|] == x;
    assert s[|a| + 1..] == b && t[|x| + 1..] == y;
  }

  /** What trimming removes and what it keeps. */
  lemma {:induction false} TrimLeftShape(s: string) returns (k: nat)
    ensures k <= |s| && TrimLeft(s) == s[k..]
    ensures forall i | 0 <= i < k :: IsSpace(s[i])
    ensures k < |s| ==> !IsSpace(s[k])
  {
    k := 0;
    if s != "" && IsSpace(s[0]) {
      var j := TrimLeftShape(s[1..]);
      k := j + 1;
      assert forall i | 1 <= i < k :: s[i] == s[1..][i - 1];
    }
  }

  lemma {:induction false} TrimRightShape(s: string) returns (k: nat)
    ensures k <= |s| && TrimRight(s) == s[..k]
    ensures forall i | k <= i < |s| :: IsSpace(s[i])
    ensures k > 0 ==> !IsSpace(s[k - 1])
  {
    k := |s|;
    if s != "" && IsSpace(s[|s| - 1]) {
      k := TrimRightShape(s[..|s| - 1]);
      assert forall i | k <= i < |s| - 1 :: s[i] == s[..|s| - 1][i];
    }
  }

  /** A string with no blank at either end is left alone. */
  lemma {:induction false} TrimFixed(s: string)
    requires s == "" || (!IsSpace(s[0]) && !IsSpace(s[|s| - 1]))
    ensures TrimSpace(s) == s
  {
  }

  predicate Blank(s: string) {
    forall i | 0 <= i < |s| :: IsSpace(s[i])
  }

  /** Trimming takes blanks off both ends. */
  lemma {:induction false} TrimCut(s: string) returns (w: string, z: string)
    ensures s == w + TrimSpace(s) + z && Blank(w) && Blank(z)
    ensures var t := TrimSpace(s); t != "" ==> !IsSpace(t[0]) && !IsSpace(t[|t| - 1])
  {
    var k := TrimLeftShape(s);
    var tail := s[k..];
    var e := TrimRightShape(tail);
    w, z := s[..k], tail[e..];
    assert tail == tail[..e] + z && s == w + tail;
  }

  lemma {:induction false} TrimKeeps(s: string, c: char)
    ensures c in TrimSpace(s) ==> c in s
    ensures c in s && !IsSpace(c) ==> c in TrimSpace(s)
  {
    var w, z := TrimCut(s);
  }

  lemma {:induction false} TrimLast(s: string, c: char)
    requires IsSpace(c)
    ensures TrimSpace(s + [c]) == TrimSpace(s)
  {
    if s == "" {
      assert s + [c] == [c] && [c][1..] == "";
    } else if IsSpace(s[0]) {
      assert (s + [c])[1..] == s[1..] + [c];
      TrimLast(s[1..], c);
    } else {
      assert (s + [c])[..|s|] == s;
    }
  }

  /** Blanks at the end do not matter to trimming. */
  lemma {:induction false} TrimTail(s: string, z: string)
    requires Blank(z)
    ensures TrimSpace(s + z) == TrimSpace(s)
  {
    if z == "" {
      assert s + z == s;
    } else {
      var n := |z| - 1;
      assert s + z == s + z[..n] + [z[n]];
      TrimTail(s, z[..n]);
      TrimLast(s + z[..n], z[n]);
    }
  }

  /** A character other than the separator ends up in some part. */
  lemma {:induction false} SplitKeeps(s: string, sep: char, c: char) returns (p: string)
    requires c in s && c != sep
    ensures p in Split(s, sep) && c in p
  {
    var rest := Split(s[1..], sep);
    if s[0] == c {
      p := Split(s, sep)[0];
    } else {
      var q := SplitKeeps(s[1..], sep, c);
      p := if s[0] != sep && q == rest[0] then [s[0]] + rest[0] else q;
    }
  }
}
