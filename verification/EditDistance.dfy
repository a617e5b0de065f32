/** The typosquatting check (`internal/supplychain/validators.go`): the greedy
    dynamic-programming table against shortest chains of single edits. */
module EditDistance {
  import opened PackageNames

  // --------------------------------------------------------- what it measures

  /** `v` is `u` with one byte inserted, deleted or substituted, anywhere. */
  ghost predicate Edit(u: string, v: string) {
    exists p: string, x: string, y: string, q: string ::
      EditAt(u, v, p, x, y, q)
  }

  predicate EditAt(u: string, v: string, p: string, x: string, y: string, q: string) {
    u == p + x + q && v == p + y + q && |x| <= 1 && |y| <= 1 && |x| + |y| >= 1
  }

  /** A chain of single edits from `a` to `b`; its length is |w| - 1. */
  ghost predicate Chain(w: seq<string>, a: string, b: string) {
    && |w| >= 1 && w[0] == a && w[|w| - 1] == b
    && forall i | 0 < i < |w| :: Edit(w[i - 1], w[i])
  }

  /** `d` is the length of a shortest chain from `a` to `b`. */
  ghost predicate Distance(a: string, b: string, d: int) {
    && (exists w :: Chain(w, a, b) && |w| == d + 1)
    && (forall w | Chain(w, a, b) :: |w| >= d + 1)
  }

  // -------------------------------------------------------- the greedy table

  function Min(a: int, b: int): int {
    if a <= b then a else b
  }

  function Init(s: string): string
    requires s != ""
  {
    s[..|s| - 1]
  }

  function Last(s: string): char
    requires s != ""
  {
    s[|s| - 1]
  }

  /** Entry of the table for two prefixes: equal last bytes take the diagonal
      without looking at the other two neighbours. */
  function Lev(a: string, b: string): (d: nat)
    decreases |a| + |b|
  {
    if a == "" then |b|
    else if b == "" then |a|
    else if Last(a) == Last(b) then Lev(Init(a), Init(b))
    else 1 + Min(Min(Lev(Init(a), b), Lev(a, Init(b))), Lev(Init(a), Init(b)))
  }

  // ------------------------------------------------- chains as long as Lev

  lemma {:induction false} ExtendEdit(u: string, v: string, c: char)
    requires Edit(u, v)
    ensures Edit(u + [c], v + [c])
  {
    var p: string, x: string, y: string, q: string :| EditAt(u, v, p, x, y, q);
    assert EditAt(u + [c], v + [c], p, x, y, q + [c]);
  }

  lemma {:induction false} TailEdit(p: string, x: string, y: string)
    requires |x| <= 1 && |y| <= 1 && |x| + |y| >= 1
    ensures Edit(p + x, p + y)
  {
    assert p + x + "" == p + x && p + y + "" == p + y;
    assert EditAt(p + x, p + y, p, x, y, "");
  }

  lemma {:induction false} ExtendChain(w: seq<string>, a: string, b: string, c: char) returns (v: seq<string>)
    requires Chain(w, a, b)
    ensures Chain(v, a + [c], b + [c]) && |v| == |w|
  {
    v := seq(|w|, i requires 0 <= i < |w| => w[i] + [c]);
    forall i | 0 < i < |v| ensures Edit(v[i - 1], v[i]) {
      ExtendEdit(w[i - 1], w[i], c);
    }
  }

  lemma {:induction false} AppendEdit(w: seq<string>, a: string, b: string, c: string)
    requires Chain(w, a, b) && Edit(b, c)
    ensures Chain(w + [c], a, c)
  {
  }

  lemma {:induction false} PrependEdit(w: seq<string>, a: string, b: string, c: string)
    requires Chain(w, b, c) && Edit(a, b)
    ensures Chain([a] + w, a, c)
  {
    var v := [a] + w;
    forall i | 0 < i < |v| ensures Edit(v[i - 1], v[i]) {
      if i > 1 {
        assert v[i - 1] == w[i - 2] && v[i] == w[i - 1];
        assert Edit(w[i - 2], w[i - 1]);
      }
    }
  }

  lemma {:induction false} LevChain(a: string, b: string) returns (w: seq<string>)
    ensures Chain(w, a, b) && |w| == Lev(a, b) + 1
    decreases |a| + |b|
  {
    if a == "" && b == "" {
      w := [a];
    } else if a == "" || (b != "" && Last(a) != Last(b) && Lev(a, b) == 1 + Lev(a, Init(b))) {
      w := LevChain(a, Init(b));
      TailEdit(Init(b), "", [Last(b)]);
      assert Init(b) + "" == Init(b) && Init(b) + [Last(b)] == b;
      AppendEdit(w, a, Init(b), b);
      w := w + [b];
    } else if b == "" || (Last(a) != Last(b) && Lev(a, b) == 1 + Lev(Init(a), b)) {
      w := LevChain(Init(a), b);
      TailEdit(Init(a), [Last(a)], "");
      assert Init(a) + "" == Init(a) && Init(a) + [Last(a)] == a;
      PrependEdit(w, a, Init(a), b);
      w := [a] + w;
    } else {
      w := LevChain(Init(a), Init(b));
      assert Init(a) + [Last(a)] == a && Init(b) + [Last(b)] == b;
      w := ExtendChain(w, Init(a), Init(b), Last(a));
      if Last(a) != Last(b) {
        TailEdit(Init(b), [Last(a)], [Last(b)]);
        AppendEdit(w, a, Init(b) + [Last(a)], b);
        w := w + [b];
      }
    }
  }

  // -------------------------------------------- no chain is shorter than Lev

  /** One byte more on either side changes `Lev` by at most one, and one byte
      more on both sides never lowers it: why the greedy diagonal is optimal. */
  lemma {:induction false} Lipschitz(a: string, b: string, c: char, d: char)
    ensures Lev(a, b) - 1 <= Lev(a + [c], b) <= Lev(a, b) + 1
    ensures Lev(a, b) - 1 <= Lev(a, b + [d]) <= Lev(a, b) + 1
    ensures Lev(a, b) <= Lev(a + [c], b + [d]) <= Lev(a, b) + 1
    decreases |a| + |b|
  {
    assert Init(a + [c]) == a && Init(b + [d]) == b;
    if a != "" {
      assert Init(a) + [Last(a)] == a;
      Lipschitz(Init(a), b, Last(a), d);
    }
    if b != "" {
      assert Init(b) + [Last(b)] == b;
      Lipschitz(a, Init(b), c, Last(b));
    }
    if a != "" && b != "" {
      Lipschitz(Init(a), Init(b), Last(a), Last(b));
    }
  }

  /** A single edit anywhere in the first string changes `Lev` by at most one. */
  lemma {:induction false} LevStep(u: string, v: string, p: string, x: string, y: string, q: string, b: string)
    requires EditAt(u, v, p, x, y, q)
    ensures Lev(u, b) <= Lev(v, b) + 1
    decreases |q| + |b|
  {
    if q == "" {
      assert u == p + x && v == p + y;
      TailStep(p, x, y, b);
    } else if b != "" {
      assert Init(u) == p + x + Init(q) && Init(v) == p + y + Init(q);
      assert Last(u) == Last(q) == Last(v);
      LevStep(Init(u), Init(v), p, x, y, Init(q), b);
      LevStep(u, v, p, x, y, q, Init(b));
      LevStep(Init(u), Init(v), p, x, y, Init(q), Init(b));
    }
  }

  lemma {:induction false} TailStep(p: string, x: string, y: string, b: string)
    requires |x| <= 1 && |y| <= 1
    ensures Lev(p + x, b) <= Lev(p + y, b) + 1
  {
    assert p + "" == p;
    if |x| == 1 && |y| == 1 {
      assert x == [x[0]] && y == [y[0]];
      SubstituteStep(p, x[0], y[0], b);
    } else if |x| == 1 {
      assert x == [x[0]];
      Lipschitz(p, b, x[0], x[0]);
    } else if |y| == 1 {
      assert y == [y[0]];
      Lipschitz(p, b, y[0], y[0]);
    }
  }

  lemma {:induction false} SubstituteStep(p: string, c: char, d: char, b: string)
    ensures Lev(p + [c], b) <= Lev(p + [d], b) + 1
  {
    if b != "" {
      assert Init(b) + [Last(b)] == b;
      Lipschitz(p, Init(b), c, Last(b));
      Lipschitz(p, Init(b), d, Last(b));
    }
  }

  lemma {:induction false} LevStepAny(u: string, v: string, b: string)
    requires Edit(u, v)
    ensures Lev(u, b) <= Lev(v, b) + 1
  {
    var p: string, x: string, y: string, q: string :| EditAt(u, v, p, x, y, q);
    LevStep(u, v, p, x, y, q, b);
  }

  lemma {:induction false} LevSelf(a: string)
    ensures Lev(a, a) == 0
  {
    if a != "" {
      LevSelf(Init(a));
    }
  }

  lemma {:induction false} ChainAtLeast(w: seq<string>, a: string, b: string)
    requires Chain(w, a, b)
    ensures |w| >= Lev(a, b) + 1
    decreases |w|
  {
    if |w| == 1 {
      LevSelf(a);
    } else {
      var t := w[1..];
      assert forall i | 0 < i < |t| :: t[i - 1] == w[i] && t[i] == w[i + 1] && Edit(w[i], w[i + 1]);
      assert Chain(t, w[1], b);
      ChainAtLeast(t, w[1], b);
      LevStepAny(w[0], w[1], b);
    }
  }

  /** The greedy recurrence computes the distance. */
  lemma {:induction false} LevIsDistance(a: string, b: string)
    ensures Distance(a, b, Lev(a, b))
  {
    var w := LevChain(a, b);
    forall v | Chain(v, a, b) ensures |v| >= Lev(a, b) + 1 {
      ChainAtLeast(v, a, b);
    }
  }

  lemma {:induction false} DistanceUnique(a: string, b: string, d: int, e: int)
    requires Distance(a, b, d) && Distance(a, b, e)
    ensures d == e
  {
    var w :| Chain(w, a, b) && |w| == d + 1;
    var v :| Chain(v, a, b) && |v| == e + 1;
  }

  // ------------------------------------------------------------ metric laws

  lemma {:induction false} EditSymmetric(u: string, v: string)
    requires Edit(u, v)
    ensures Edit(v, u)
  {
    var p: string, x: string, y: string, q: string :| EditAt(u, v, p, x, y, q);
    assert EditAt(v, u, p, y, x, q);
  }

  lemma {:induction false} ReverseChain(w: seq<string>, a: string, b: string) returns (v: seq<string>)
    requires Chain(w, a, b)
    ensures Chain(v, b, a) && |v| == |w|
  {
    v := seq(|w|, i requires 0 <= i < |w| => w[|w| - 1 - i]);
    forall i | 0 < i < |v| ensures Edit(v[i - 1], v[i]) {
      EditSymmetric(w[|w| - 1 - i], w[|w| - i]);
    }
  }

  lemma {:induction false} JoinChains(w: seq<string>, v: seq<string>, a: string, b: string, c: string)
    requires Chain(w, a, b) && Chain(v, b, c)
    ensures Chain(w + v[1..], a, c)
  {
    var u := w + v[1..];
    forall i | 0 < i < |u| ensures Edit(u[i - 1], u[i]) {
      if i >= |w| {
        assert u[i] == v[i - |w| + 1] && u[i - 1] == v[i - |w|];
      }
    }
    assert |v| > 1 ==> u[|u| - 1] == v[|v| - 1];
  }

  /** Symmetry, the triangle inequality, and zero only for equal strings. */
  lemma {:induction false} DistanceIsMetric(a: string, b: string, c: string, ab: int, bc: int, ac: int)
    requires Distance(a, b, ab) && Distance(b, c, bc) && Distance(a, c, ac)
    ensures Distance(b, a, ab)
    ensures ac <= ab + bc
    ensures ab >= 0 && (ab == 0 <==> a == b)
  {
    var w :| Chain(w, a, b) && |w| == ab + 1;
    var v :| Chain(v, b, c) && |v| == bc + 1;
    JoinChains(w, v, a, b, c);
    var r := ReverseChain(w, a, b);
    forall u | Chain(u, b, a) ensures |u| >= ab + 1 {
      var u' := ReverseChain(u, b, a);
    }
    if a == b {
      assert Chain([a], a, b);
    }
  }

  /** Distance one means different and one edit apart. */
  lemma {:induction false} DistanceOne(a: string, b: string)
    ensures Distance(a, b, 1) <==> a != b && Edit(a, b)
  {
    if Distance(a, b, 1) {
      var w :| Chain(w, a, b) && |w| == 2;
      assert Edit(w[0], w[1]);
      assert a == b ==> Chain([a], a, b);
    }
    if a != b && Edit(a, b) {
      assert Chain([a, b], a, b);
      assert |[a, b]| == 1 + 1;
      forall w | Chain(w, a, b) ensures |w| >= 2 {}
    }
  }

  // ---------------------------------------------------------------- the code

  /** The table entry for the first k and l bytes. */
  ghost function Entry(s1: string, s2: string, k: nat, l: nat): nat
    requires k <= |s1| && l <= |s2|
  {
    Lev(s1[..k], s2[..l])
  }

  lemma {:induction false} EntryStep(s1: string, s2: string, i: nat, j: nat)
    requires 0 < i <= |s1| && 0 < j <= |s2|
    ensures Entry(s1, s2, i, j) ==
      if s1[i - 1] == s2[j - 1] then Entry(s1, s2, i - 1, j - 1)
      else 1 + Min(Min(Entry(s1, s2, i - 1, j), Entry(s1, s2, i, j - 1)), Entry(s1, s2, i - 1, j - 1))
  {
    assert Init(s1[..i]) == s1[..i - 1] && Init(s2[..j]) == s2[..j - 1];
  }

  /** Rows below `i` are filled, and row `i` is filled up to column `j`. */
  ghost predicate Filled(dp: array2<int>, s1: string, s2: string, i: nat, j: nat)
    requires dp.Length0 == |s1| + 1 && dp.Length1 == |s2| + 1
    reads dp
  {
    forall k: nat, l: nat | k <= |s1| && l <= |s2| && (l == 0 || k < i || (k == i && l < j)) ::
      dp[k, l] == Entry(s1, s2, k, l)
  }

  /** `levenshtein`: fill the borders, then the table row by row. */
  method Levenshtein(s1: string, s2: string) returns (d: int)
    ensures Distance(s1, s2, d) && d == Lev(s1, s2)
  {
    var dp := new int[|s1| + 1, |s2| + 1];
    for i := 0 to |s1| + 1
      invariant forall k: nat | k < i :: dp[k, 0] == k
    {
      dp[i, 0] := i;
    }
    for j := 0 to |s2| + 1
      invariant forall k: nat | k <= |s1| :: dp[k, 0] == k
      invariant forall l: nat | l < j :: dp[0, l] == l
    {
      dp[0, j] := j;
    }
    for i := 1 to |s1| + 1
      invariant Filled(dp, s1, s2, i, 0)
    {
      for j := 1 to |s2| + 1
        invariant Filled(dp, s1, s2, i, j)
      {
        EntryStep(s1, s2, i, j);
        if s1[i - 1] == s2[j - 1] {
          dp[i, j] := dp[i - 1, j - 1];
        } else {
          var minVal := dp[i - 1, j];
          if dp[i, j - 1] < minVal {
            minVal := dp[i, j - 1];
          }
          if dp[i - 1, j - 1] < minVal {
            minVal := dp[i - 1, j - 1];
          }
          dp[i, j] := minVal + 1;
        }
      }
    }
    d := dp[|s1|, |s2|];
    assert d == Entry(s1, s2, |s1|, |s2|);
    assert s1[..|s1|] == s1 && s2[..|s2|] == s2;
    LevIsDistance(s1, s2);
  }

  // --------------------------------------------------------------------- check

  /** The condition `Check` decides: not itself known, and some other entry is
      one edit away from the normal form of the name. */
  ghost predicate Suspicious(known: map<string, bool>, name: string) {
    && !(name in known && known[name])
    && exists k :: k in known && k != NormalName(name) && Edit(NormalName(name), k)
  }

  /** `TyposquattingDetector.Check`, with the map in an arbitrary order. */
  method Check(known: map<string, bool>, name: string) returns (typo: bool, closest: string)
    ensures typo <==> Suspicious(known, name)
    ensures typo ==> closest in known && closest != NormalName(name) && Edit(NormalName(name), closest)
    ensures !typo ==> closest == ""
  {
    if name in known && known[name] {
      return false, "";
    }
    var normalized := Normalized(name);
    NormalizedIsNormal(name);
    var todo := known.Keys;
    while todo != {}
      invariant todo <= known.Keys
      invariant forall k | k in known && k !in todo :: k == normalized || !Edit(normalized, k)
      decreases todo
    {
      var k :| k in todo;
      var d := Levenshtein(normalized, k);
      DistanceOne(normalized, k);
      if d == 1 {
        return true, k;
      }
      if Distance(normalized, k, 1) {
        DistanceUnique(normalized, k, 1, d);
      }
      todo := todo - {k};
    }
    return false, "";
  }
}
