/** `splitSQLStatements` (`internal/tenancy/provision.go`). A `char` is one rune
    of the input. */
module SqlSplitter {
  import opened Text

  // ----------------------------------------------------------- specification

  predicate Comment(line: string) {
    HasPrefix(TrimSpace(line), "--")
  }

  /** The text without its comment lines, every kept line ended by a newline. */
  function KeptOf(lines: seq<string>): string {
    if lines == [] then ""
    else KeptOf(lines[..|lines| - 1]) +
         var line := lines[|lines| - 1]; if Comment(line) then "" else line + "\n"
  }

  function Kept(sql: string): string {
    KeptOf(Split(sql, '\n'))
  }

  datatype Quote = Outside | Inside(mark: char)

  function Turn(q: Quote, c: char): Quote {
    if c != '\'' && c != '"' then q
    else if q.Outside? then Inside(c)
    else if q.mark == c then Outside
    else q
  }

  /** Quote state after reading `t` from outside. */
  function After(t: string): Quote {
    if t == "" then Outside else Turn(After(t[..|t| - 1]), t[|t| - 1])
  }

  /** A semicolon outside quotes. */
  predicate CutAt(t: string, i: nat)
    requires i < |t|
  {
    t[i] == ';' && After(t[..i]) == Outside
  }

  function Concat(pieces: seq<string>): string {
    if pieces == [] then "" else Concat(pieces[..|pieces| - 1]) + pieces[|pieces| - 1]
  }

  datatype Scanned = Scanned(pieces: seq<string>, rest: string)

  function Scan(t: string): Scanned {
    if t == "" then Scanned([], "")
    else
      var n := |t| - 1;
      var s, c := Scan(t[..n]), t[n];
      if c == ';' && After(t[..n]) == Outside then Scanned(s.pieces + [s.rest + [c]], "")
      else Scanned(s.pieces, s.rest + [c])
  }

  function Statements(s: Scanned): seq<string> {
    s.pieces + if TrimSpace(s.rest) == "" then [] else [TrimSpace(s.rest)]
  }

  function SplitStatements(sql: string): seq<string> {
    Statements(Scan(Kept(sql)))
  }

  // ---------------------------------------------------------------- the code

  /** One more rune. */
  lemma {:induction false} ScanSnoc(t: string, c: char)
    ensures After(t + [c]) == Turn(After(t), c)
    ensures Scan(t + [c]) ==
      if c == ';' && After(t) == Outside then Scanned(Scan(t).pieces + [Scan(t).rest + [c]], "")
      else Scanned(Scan(t).pieces, Scan(t).rest + [c])
  {
    assert (t + [c])[..|t|] == t;
  }

  ghost predicate Matches(t: string, statements: seq<string>, current: string, inQuote: bool, quoteChar: char) {
    && Scan(t) == Scanned(statements, current)
    && After(t) == if inQuote then Inside(quoteChar) else Outside
  }

  /** One more rune, once the quote variables are updated. */
  lemma {:induction false} MatchesSnoc(t: string, c: char, statements: seq<string>, current: string,
                                       inQuote: bool, quoteChar: char, inQuote': bool, quoteChar': char)
    requires Matches(t, statements, current, inQuote, quoteChar)
    requires if (c == '\'' || c == '"') && !inQuote then inQuote' && quoteChar' == c
             else inQuote' == (inQuote && !((c == '\'' || c == '"') && c == quoteChar)) && quoteChar' == quoteChar
    ensures c == ';' && !inQuote' ==> Matches(t + [c], statements + [current + [c]], "", inQuote', quoteChar')
    ensures !(c == ';' && !inQuote') ==> Matches(t + [c], statements, current + [c], inQuote', quoteChar')
  {
    ScanSnoc(t, c);
  }

  /** The inner loop, over the runes of one line, and the newline after it. */
  method ScanLine(ghost before: string, line: string, statements0: seq<string>, current0: string, inQuote0: bool, quoteChar0: char)
    returns (statements: seq<string>, current: string, inQuote: bool, quoteChar: char)
    requires Matches(before, statements0, current0, inQuote0, quoteChar0)
    ensures Matches(before + line + "\n", statements, current, inQuote, quoteChar)
  {
    statements, current, inQuote, quoteChar := statements0, current0, inQuote0, quoteChar0;
    assert before + line[..0] == before;
    for k := 0 to |line|
      invariant Matches(before + line[..k], statements, current, inQuote, quoteChar)
    {
      var c := line[k];
      ghost var wasIn, wasChar := inQuote, quoteChar;
      assert before + line[..k] + [c] == before + line[..k + 1];
      if c == '\'' || c == '"' {
        if !inQuote {
          inQuote := true;
          quoteChar := c;
        } else if c == quoteChar {
          inQuote := false;
        }
      }
      MatchesSnoc(before + line[..k], c, statements, current, wasIn, wasChar, inQuote, quoteChar);
      if c == ';' && !inQuote {
        current := current + [c];
        statements := statements + [current];
        current := "";
        continue;
      }
      current := current + [c];
    }
    assert line[..|line|] == line;
    ScanSnoc(before + line, '\n');
    current := current + "\n";
  }

  /** The outer loop, over lines. */
  method ScanLines(lines: seq<string>) returns (statements: seq<string>, current: string)
    ensures Scan(KeptOf(lines)) == Scanned(statements, current)
  {
    statements, current := [], "";
    var inQuote, quoteChar := false, '\0';
    for i := 0 to |lines|
      invariant Matches(KeptOf(lines[..i]), statements, current, inQuote, quoteChar)
    {
      var line := lines[i];
      KeptStep(lines, i);
      if HasPrefix(TrimSpace(line), "--") {
        continue;
      }
      ghost var before := KeptOf(lines[..i]);
      statements, current, inQuote, quoteChar := ScanLine(before, line, statements, current, inQuote, quoteChar);
    }
    assert lines[..|lines|] == lines;
  }

  /** `splitSQLStatements`. */
  method SplitSQL(sql: string) returns (statements: seq<string>)
    ensures statements == SplitStatements(sql)
  {
    var current;
    statements, current := ScanLines(Split(sql, '\n'));
    if |current| > 0 {
      var stmt := TrimSpace(current);
      if stmt != "" {
        statements := statements + [stmt];
      }
    }
  }

  lemma {:induction false} KeptSnoc(lines: seq<string>, line: string)
    ensures KeptOf(lines + [line]) == if Comment(line) then KeptOf(lines) else KeptOf(lines) + line + "\n"
  {
    assert (lines + [line])[..|lines|] == lines;
  }

  lemma {:induction false} KeptStep(lines: seq<string>, i: nat)
    requires i < |lines|
    ensures KeptOf(lines[..i + 1]) == if Comment(lines[i]) then KeptOf(lines[..i]) else KeptOf(lines[..i]) + lines[i] + "\n"
  {
    KeptSnoc(lines[..i], lines[i]);
    assert lines[..i] + [lines[i]] == lines[..i + 1];
  }

  // -------------------------------------------------------------- exact cuts

  lemma {:induction false} ConcatSnoc(pieces: seq<string>, p: string)
    ensures Concat(pieces + [p]) == Concat(pieces) + p
  {
    assert (pieces + [p])[..|pieces|] == pieces;
  }

  /** Where the k-th piece ends in the text. */
  function End(pieces: seq<string>, k: nat): nat
    requires k < |pieces|
  {
    |Concat(pieces[..k + 1])|
  }

  lemma {:induction false} CoversSnoc(t: string, c: char)
    requires t == Concat(Scan(t).pieces) + Scan(t).rest
    ensures t + [c] == Concat(Scan(t + [c]).pieces) + Scan(t + [c]).rest
  {
    ScanSnoc(t, c);
    GrowLast(Scan(t).pieces, Scan(t).rest, c);
  }

  /** The rest grows by one rune, whether or not that closes a piece. */
  lemma {:induction false} GrowLast(pieces: seq<string>, rest: string, c: char)
    ensures Concat(pieces + [rest + [c]]) + "" == Concat(pieces) + rest + [c]
    ensures Concat(pieces) + (rest + [c]) == Concat(pieces) + rest + [c]
  {
    ConcatSnoc(pieces, rest + [c]);
    var a := Concat(pieces);
    assert a + (rest + [c]) == a + rest + [c];
    assert a + (rest + [c]) + "" == a + (rest + [c]);
  }

  lemma {:induction false} Covers(t: string)
    ensures t == Concat(Scan(t).pieces) + Scan(t).rest
  {
    if t != "" {
      var t', c := t[..|t| - 1], t[|t| - 1];
      assert t == t' + [c];
      Covers(t');
      CoversSnoc(t', c);
    }
  }

  lemma {:induction false} EndsOf(t: string, c: char)
    ensures var s, s' := Scan(t), Scan(t + [c]);
      && |s.pieces| <= |s'.pieces| <= |s.pieces| + 1
      && (forall k: nat | k < |s.pieces| :: End(s'.pieces, k) == End(s.pieces, k))
      && (|s'.pieces| > |s.pieces| <==> CutAt(t + [c], |t|))
      && (|s'.pieces| > |s.pieces| ==> End(s'.pieces, |s.pieces|) == |t| + 1)
  {
    ScanSnoc(t, c);
    var s, s' := Scan(t), Scan(t + [c]);
    assert (t + [c])[..|t|] == t;
    forall k: nat | k < |s.pieces| ensures End(s'.pieces, k) == End(s.pieces, k) {
      assert s'.pieces[..k + 1] == s.pieces[..k + 1];
    }
    if |s'.pieces| > |s.pieces| {
      assert s'.pieces[..|s.pieces| + 1] == s'.pieces;
      Covers(t + [c]);
    }
  }

  /** Every piece ends right after a semicolon outside quotes... */
  lemma {:induction false} EndsAreCuts(t: string, k: nat)
    requires k < |Scan(t).pieces|
    ensures 0 < End(Scan(t).pieces, k) <= |t| && CutAt(t, End(Scan(t).pieces, k) - 1)
  {
    var t', c := t[..|t| - 1], t[|t| - 1];
    assert t == t' + [c];
    EndsOf(t', c);
    if k < |Scan(t').pieces| {
      EndsAreCuts(t', k);
      var e := End(Scan(t').pieces, k) - 1;
      assert t[..e] == t'[..e];
    }
  }

  /** ... and every such semicolon ends a piece. */
  lemma {:induction false} CutsAreEnds(t: string, i: nat) returns (k: nat)
    requires i < |t| && CutAt(t, i)
    ensures k < |Scan(t).pieces| && End(Scan(t).pieces, k) == i + 1
  {
    var t', c := t[..|t| - 1], t[|t| - 1];
    assert t == t' + [c];
    EndsOf(t', c);
    if i == |t'| {
      k := |Scan(t').pieces|;
    } else {
      assert t[..i] == t'[..i];
      k := CutsAreEnds(t', i);
    }
  }

  /** Scanning restarts after a piece. */
  lemma {:induction false} ScanAppend(a: string, b: string)
    requires Scan(a).rest == "" && After(a) == Outside
    ensures After(a + b) == After(b)
    ensures Scan(a + b) == Scanned(Scan(a).pieces + Scan(b).pieces, Scan(b).rest)
  {
    if b == "" {
      assert a + b == a;
    } else {
      var n := |b| - 1;
      ScanAppend(a, b[..n]);
      assert (a + b)[..|a| + n] == a + b[..n];
      assert Scan(a).pieces + (Scan(b[..n]).pieces + [Scan(b[..n]).rest + [b[n]]]) ==
             Scan(a).pieces + Scan(b[..n]).pieces + [Scan(b[..n]).rest + [b[n]]];
    }
  }

  lemma {:induction false} PiecesScan(t: string)
    ensures var p := Concat(Scan(t).pieces);
      && Scan(p) == Scanned(Scan(t).pieces, "") && After(p) == Outside
      && (p == "" || p[|p| - 1] == ';')
  {
    if t != "" {
      var t', c := t[..|t| - 1], t[|t| - 1];
      assert t == t' + [c];
      ScanSnoc(t', c);
      PiecesScan(t');
      Covers(t);
      if Scan(t).rest == "" {
        assert Concat(Scan(t).pieces) == t;
      }
    }
  }

  /** Blanks and text without cuts. */
  lemma {:induction false} BlankOutside(w: string)
    requires forall i | 0 <= i < |w| :: IsSpace(w[i])
    ensures Scan(w) == Scanned([], w) && After(w) == Outside
  {
    if w != "" {
      BlankOutside(w[..|w| - 1]);
    }
  }

  lemma {:induction false} AfterBlank(w: string, s: string)
    requires After(w) == Outside
    ensures After(w + s) == After(s)
  {
    if s == "" {
      assert w + s == w;
    } else {
      assert (w + s)[..|w| + |s| - 1] == w + s[..|s| - 1];
      AfterBlank(w, s[..|s| - 1]);
    }
  }

  lemma {:induction false} NoCuts(t: string)
    ensures Scan(t).pieces == [] <==> forall i: nat | i < |t| :: !CutAt(t, i)
    ensures Scan(t).pieces == [] ==> Scan(t).rest == t
  {
    Covers(t);
    if Scan(t).pieces != [] {
      EndsAreCuts(t, 0);
    } else {
      forall i: nat | i < |t| ensures !CutAt(t, i) {
        if CutAt(t, i) {
          var k := CutsAreEnds(t, i);
        }
      }
    }
  }

  /** Trimming an uncut rest leaves it uncut. */
  lemma {:induction false} TrimmedUncut(rest: string)
    requires Scan(rest).pieces == []
    ensures Scan(TrimSpace(rest)).pieces == []
  {
    var k := TrimLeftShape(rest);
    var e := TrimRightShape(rest[k..]);
    var w, s, z := rest[..k], rest[k..][..e], rest[k..][e..];
    assert rest == w + s + z;
    BlankOutside(w);
    NoCuts(rest);
    NoCuts(s);
    forall i: nat | i < |s| ensures !CutAt(s, i) {
      CutShift(w, s, z, i);
    }
  }

  lemma {:induction false} CutShift(w: string, s: string, z: string, i: nat)
    requires After(w) == Outside && i < |s|
    ensures CutAt(w + s + z, |w| + i) == CutAt(s, i)
  {
    AfterBlank(w, s[..i]);
    assert (w + s + z)[..|w| + i] == w + s[..i];
  }

  lemma {:induction false} TrimNewline(rest: string)
    ensures var s := TrimSpace(rest); TrimSpace(s + "\n") == s
  {
    var k := TrimLeftShape(rest);
    var tail := rest[k..];
    var e := TrimRightShape(tail);
    var s := tail[..e];
    if s == "" {
      assert s + "\n" == "\n" && "\n"[1..] == "";
      assert TrimLeft("\n") == TrimLeft("");
    } else {
      assert s[0] == rest[k];
      assert TrimLeft(s + "\n") == s + "\n";
      assert (s + "\n")[..|s|] == s;
      assert TrimRight(s + "\n") == TrimRight(s) == s;
    }
  }

  // ---------------------------------------------------- comment lines of cuts

  /** No line of the text is a comment. */
  ghost predicate AllKept(t: string) {
    forall l | l in Split(t, '\n') :: !Comment(l)
  }

  lemma {:induction false} CommentByHead(l: string)
    ensures Comment(l) <==> HasPrefix(TrimLeft(l), "--")
  {
    var k := TrimLeftShape(l);
    var h := l[k..];
    var e := TrimRightShape(h);
    if HasPrefix(h, "--") {
      assert h[0] == '-' && h[1] == '-' by { assert h[..2] == "--"; }
      assert e >= 2;
      assert h[..e][..2] == h[..2];
    }
    if HasPrefix(h[..e], "--") {
      assert h[..2] == h[..e][..2];
    }
  }

  lemma {:induction false} TrimLeftOver(l: string, a: string)
    requires l != "" && !IsSpace(l[|l| - 1])
    ensures TrimLeft(l) != "" && TrimLeft(l)[|TrimLeft(l)| - 1] == l[|l| - 1]
    ensures TrimLeft(l + a) == TrimLeft(l) + a
  {
    if IsSpace(l[0]) {
      assert (l + a)[1..] == l[1..] + a;
      TrimLeftOver(l[1..], a);
    }
  }

  /** A line head that ends in a semicolon decides whether it is a comment. */
  lemma {:induction false} HeadDecides(l: string, a: string, b: string)
    requires l != "" && l[|l| - 1] == ';'
    ensures Comment(l + a) == Comment(l + b)
  {
    TrimLeftOver(l, a);
    TrimLeftOver(l, b);
    CommentByHead(l + a);
    CommentByHead(l + b);
    var h := TrimLeft(l);
    if |h| >= 2 {
      assert (h + a)[..2] == h[..2] == (h + b)[..2];
    } else {
      assert (h + a)[0] == ';' == (h + b)[0];
      assert "--"[0] == '-';
    }
  }

  lemma {:induction false} LastLine(p: string)
    requires p != "" && p[|p| - 1] == ';'
    ensures var x := Split(p, '\n'); var l := x[|x| - 1]; l != "" && l[|l| - 1] == ';'
  {
    var n := |p| - 1;
    assert p == p[..n] + ";";
    SplitNone(";", '\n');
    SplitGlue(p[..n], ";", '\n');
  }

  lemma {:induction false} GlueMembers(x: seq<string>, y: seq<string>, l: string)
    requires x != [] && y != []
    ensures l in Glue(x, y) <==> l in x[..|x| - 1] || l == x[|x| - 1] + y[0] || l in y[1..]
  {
  }

  /** `AllKept` of a concatenation, line by line. */
  lemma {:induction false} AllKeptGlue(a: string, b: string)
    ensures var x, y := Split(a, '\n'), Split(b, '\n');
      AllKept(a + b) <==>
        && (forall l | l in x[..|x| - 1] :: !Comment(l)) && !Comment(x[|x| - 1] + y[0])
        && (forall l | l in y[1..] :: !Comment(l))
  {
    var x, y := Split(a, '\n'), Split(b, '\n');
    SplitGlue(a, b, '\n');
    forall l ensures l in Glue(x, y) <==> l in x[..|x| - 1] || l == x[|x| - 1] + y[0] || l in y[1..] {
      GlueMembers(x, y, l);
    }
  }

  /** Dropping a blank right after a piece (or at the start) makes no comment. */
  lemma {:induction false} DropBlank(p: string, x: char, r: string)
    requires IsSpace(x) && AllKept(p + [x] + r) && (p == "" || p[|p| - 1] == ';')
    ensures AllKept(p + r)
  {
    AllKeptGlue(p, r);
    AllKeptGlue(p, [x] + r);
    assert p + [x] + r == p + ([x] + r) && ([x] + r)[1..] == r;
    if p != "" {
      LastLine(p);
    }
    if x == '\n' {
      DropNewline(p, r);
    } else {
      DropInner(p, x, r);
    }
  }

  /** What `AllKeptGlue` says of a line glued from two, and of the lines after. */
  ghost predicate Glued(last: string, y: seq<string>)
    requires y != []
  {
    !Comment(last + y[0]) && forall l | l in y[1..] :: !Comment(l)
  }

  function LastOf(p: string): string {
    Split(p, '\n')[|Split(p, '\n')| - 1]
  }

  lemma {:induction false} DropNewline(p: string, r: string)
    requires p == "" || (LastOf(p) != "" && LastOf(p)[|LastOf(p)| - 1] == ';')
    requires Glued(LastOf(p), Split("\n" + r, '\n'))
    ensures Glued(LastOf(p), Split(r, '\n'))
  {
    var b := Split(r, '\n');
    assert ("\n" + r)[1..] == r;
    assert Split("\n" + r, '\n') == [""] + b && ([""] + b)[1..] == b;
    assert LastOf(p) + "" == LastOf(p) && b[0] in b && forall l | l in b[1..] :: l in b;
    KeepGlued(p, LastOf(p), "", b[0]);
  }

  lemma {:induction false} DropInner(p: string, x: char, r: string)
    requires IsSpace(x) && x != '\n'
    requires p == "" || (LastOf(p) != "" && LastOf(p)[|LastOf(p)| - 1] == ';')
    requires Glued(LastOf(p), Split([x] + r, '\n'))
    ensures Glued(LastOf(p), Split(r, '\n'))
  {
    var b := Split(r, '\n');
    assert ([x] + r)[1..] == r;
    assert Split([x] + r, '\n') == [[x] + b[0]] + b[1..];
    assert ([[x] + b[0]] + b[1..])[1..] == b[1..];
    KeepGlued(p, LastOf(p), [x] + b[0], b[0]);
    if p == "" {
      SkipLeadingBlank(x, b[0]);
    }
  }

  lemma {:induction false} SkipLeadingBlank(x: char, first: string)
    requires IsSpace(x)
    ensures Comment("" + ([x] + first)) == Comment("" + first)
  {
    CommentByHead([x] + first);
    CommentByHead(first);
    assert ([x] + first)[1..] == first;
    assert "" + ([x] + first) == [x] + first && "" + first == first;
  }

  lemma {:induction false} KeepGlued(p: string, last: string, was: string, first: string)
    requires p == "" ==> last == ""
    requires p != "" ==> last != "" && last[|last| - 1] == ';'
    requires !Comment(last + was) && (p == "" && was == "" ==> !Comment(first))
    ensures p != "" || was == "" ==> !Comment(last + first)
  {
    if p != "" {
      HeadDecides(last, was, first);
    } else {
      assert "" + first == first;
    }
  }

  lemma {:induction false} DropLeft(p: string, rest: string)
    requires AllKept(p + rest) && (p == "" || p[|p| - 1] == ';')
    ensures AllKept(p + TrimLeft(rest))
    decreases rest
  {
    if rest != "" && IsSpace(rest[0]) {
      assert p + rest == p + [rest[0]] + rest[1..];
      DropBlank(p, rest[0], rest[1..]);
      DropLeft(p, rest[1..]);
    }
  }

  lemma {:induction false} DropLast(q: string, x: char)
    requires AllKept(q + [x])
    ensures AllKept(q)
  {
    var a := Split(q, '\n');
    AllKeptGlue(q, [x]);
    LastRune(a[|a| - 1], x);
    assert a == a[..|a| - 1] + [a[|a| - 1]];
  }

  lemma {:induction false} LastRune(last: string, x: char)
    requires !Comment(last + Split([x], '\n')[0])
    ensures !Comment(last)
  {
    if x == '\n' {
      assert [x][1..] == "" && Split([x], '\n')[0] == "";
      assert last + "" == last;
    } else {
      SplitNone([x], '\n');
      CommentByHead(last);
      CommentByHead(last + [x]);
      if HasPrefix(TrimLeft(last), "--") {
        TrimLeftPrefix(last, x);
      }
    }
  }

  lemma {:induction false} TrimLeftPrefix(l: string, x: char)
    requires HasPrefix(TrimLeft(l), "--")
    ensures HasPrefix(TrimLeft(l + [x]), "--")
  {
    if IsSpace(l[0]) {
      assert (l + [x])[1..] == l[1..] + [x];
      TrimLeftPrefix(l[1..], x);
    } else {
      assert (l + [x])[..2] == l[..2];
    }
  }

  lemma {:induction false} DropRight(p: string, s: string)
    requires AllKept(p + s)
    ensures AllKept(p + TrimRight(s))
    decreases s
  {
    if s != "" && IsSpace(s[|s| - 1]) {
      assert p + s == p + s[..|s| - 1] + [s[|s| - 1]];
      DropLast(p + s[..|s| - 1], s[|s| - 1]);
      DropRight(p, s[..|s| - 1]);
    }
  }

  /** Only whole lines, none a comment. */
  ghost predicate WholeLines(t: string) {
    AllKept(t) && var x := Split(t, '\n'); x[|x| - 1] == ""
  }

  lemma {:induction false} NoLines()
    ensures WholeLines("")
  {
    assert Split("", '\n') == [""];
    assert !Comment("");
  }

  lemma {:induction false} KeptOfHasNoComment(lines: seq<string>)
    requires forall l | l in lines :: '\n' !in l
    ensures WholeLines(KeptOf(lines))
  {
    if lines != [] {
      var n := |lines| - 1;
      KeptOfHasNoComment(lines[..n]);
      KeptStep(lines, n);
      assert lines[..n + 1] == lines;
      if !Comment(lines[n]) {
        AddLine(KeptOf(lines[..n]), lines[n]);
      }
    } else {
      NoLines();
    }
  }

  lemma {:induction false} AddLine(k: string, line: string)
    requires '\n' !in line && !Comment(line) && WholeLines(k)
    ensures WholeLines(k + line + "\n")
  {
    var a := Split(k, '\n');
    SplitNone(line, '\n');
    SplitGlue(k, line, '\n');
    SplitConcat(k + line, "", '\n');
    assert k + line + "\n" == k + line + "\n" + "";
    assert "" + line == line;
    assert Split(k + line + "\n", '\n') == a[..|a| - 1] + [line] + [""];
  }

  lemma {:induction false} KeptOfClean(lines: seq<string>)
    requires lines != [] && forall l | l in lines :: !Comment(l)
    ensures KeptOf(lines) == Join(lines, '\n') + "\n"
  {
    var front, line := lines[..|lines| - 1], lines[|lines| - 1];
    assert lines == front + [line];
    if front != [] {
      KeptOfClean(front);
      JoinConcat(front, [line], '\n');
    }
  }

  // ----------------------------------------------------------------- theorems

  /** For every input: the statements are the pieces of the comment-free text
      between its unquoted semicolons, then the trimmed rest unless blank. */
  lemma {:induction false} SplitsAtUnquotedSemicolons(sql: string)
    ensures var t := Kept(sql); var s := Scan(t);
      && Concat(SplitStatements(sql)) == Concat(s.pieces) + TrimSpace(s.rest)
      && t == Concat(s.pieces) + s.rest
      && SplitStatements(sql)[..|s.pieces|] == s.pieces
      && (forall i: nat | i < |t| ::
            CutAt(t, i) <==> exists k: nat :: k < |s.pieces| && End(s.pieces, k) == i + 1)
  {
    var t := Kept(sql);
    Covers(t);
    ConcatStatements(Scan(t));
    forall i: nat | i < |t|
      ensures CutAt(t, i) <==> exists k: nat :: k < |Scan(t).pieces| && End(Scan(t).pieces, k) == i + 1
    {
      CutsExactly(t, i);
    }
  }

  lemma {:induction false} CutsExactly(t: string, i: nat)
    requires i < |t|
    ensures CutAt(t, i) <==> exists k: nat :: k < |Scan(t).pieces| && End(Scan(t).pieces, k) == i + 1
  {
    if CutAt(t, i) {
      var k := CutsAreEnds(t, i);
    }
    if k: nat :| k < |Scan(t).pieces| && End(Scan(t).pieces, k) == i + 1 {
      EndsAreCuts(t, k);
    }
  }

  lemma {:induction false} ConcatStatements(s: Scanned)
    ensures Concat(Statements(s)) == Concat(s.pieces) + TrimSpace(s.rest)
  {
    if TrimSpace(s.rest) == "" {
      assert s.pieces + [] == s.pieces;
    } else {
      ConcatSnoc(s.pieces, TrimSpace(s.rest));
    }
  }

  /** The concatenated statements are their own comment-free text. */
  lemma {:induction false} ConcatenationKept(sql: string)
    ensures var c := Concat(SplitStatements(sql)); Kept(c) == c + "\n"
  {
    var t := Kept(sql);
    var s := Scan(t);
    var p := Concat(s.pieces);
    ConcatStatements(s);
    Covers(t);
    PiecesScan(t);
    SplitParts(sql, '\n');
    KeptOfHasNoComment(Split(sql, '\n'));
    DropLeft(p, s.rest);
    DropRight(p, TrimLeft(s.rest));
    KeptOfClean(Split(p + TrimSpace(s.rest), '\n'));
    JoinSplit(p + TrimSpace(s.rest), '\n');
  }

  /** Splitting the concatenated statements again gives the same list. */
  lemma {:induction false} SplitAgain(sql: string)
    ensures SplitStatements(Concat(SplitStatements(sql))) == SplitStatements(sql)
  {
    ConcatenationKept(sql);
    ConcatStatements(Scan(Kept(sql)));
    ScanAgain(Kept(sql));
  }

  lemma {:induction false} ScanAgain(t: string)
    ensures Statements(Scan(Concat(Scan(t).pieces) + TrimSpace(Scan(t).rest) + "\n")) == Statements(Scan(t))
  {
    var s := Scan(t);
    var p, r := Concat(s.pieces), TrimSpace(s.rest);
    Covers(t);
    PiecesScan(t);
    RestUncut(p, s.pieces, s.rest);
    Rescan(p, s.pieces, s.rest);
    assert p + r + "\n" == p + (r + "\n");
  }

  lemma {:induction false} RestUncut(p: string, pieces: seq<string>, rest: string)
    requires Scan(p) == Scanned(pieces, "") && After(p) == Outside && Scan(p + rest).pieces == pieces
    ensures Scan(rest).pieces == []
  {
    ScanAppend(p, rest);
    assert |pieces + Scan(rest).pieces| == |pieces|;
  }

  lemma {:induction false} Rescan(p: string, pieces: seq<string>, rest: string)
    requires Scan(p) == Scanned(pieces, "") && After(p) == Outside && Scan(rest).pieces == []
    ensures Statements(Scan(p + (TrimSpace(rest) + "\n"))) == Statements(Scanned(pieces, rest))
  {
    var r := TrimSpace(rest);
    TrimmedUncut(rest);
    NoCuts(r);
    ScanSnoc(r, '\n');
    TrimNewline(rest);
    ScanAppend(p, r + "\n");
    assert pieces + [] == pieces;
  }
}
