/** Lexical path cleaning as documented for Go's `path.Clean` and
    `filepath.Clean` on Unix: a segment normaliser, and the byte loop. */
module CleanPaths {
  import opened Text

  // ---------------------------------------------------------------- segments

  predicate Rooted(p: string) {
    p != "" && p[0] == '/'
  }

  /** A path segment that names something: not empty, not ".", not "..". */
  predicate IsName(seg: string) {
    seg != "" && seg != "." && seg != ".." && '/' !in seg
  }

  /** One segment pushed on the stack of segments kept so far. */
  function Push(rooted: bool, stack: seq<string>, seg: string): seq<string> {
    if seg == "" || seg == "." then stack
    else if seg != ".." then stack + [seg]
    else if stack != [] && stack[|stack| - 1] != ".." then stack[..|stack| - 1]
    else if rooted then stack
    else stack + [".."]
  }

  function Norm(rooted: bool, stack: seq<string>, segs: seq<string>): seq<string>
    decreases segs
  {
    if segs == [] then stack
    else Norm(rooted, Push(rooted, stack, segs[0]), segs[1..])
  }

  function Segs(p: string): seq<string> {
    Norm(Rooted(p), [], Split(p, '/'))
  }

  function Render(rooted: bool, stack: seq<string>): string {
    if rooted then "/" + Join(stack, '/')
    else if stack == [] then "."
    else Join(stack, '/')
  }

  /** The reference normaliser: split, fold over a stack, print. */
  function Clean(p: string): string {
    Render(Rooted(p), Segs(p))
  }

  /** Shape of a cleaned stack: names, after leading ".." only if unrooted. */
  predicate Normal(rooted: bool, stack: seq<string>) {
    && (forall s | s in stack :: s != "" && s != "." && '/' !in s)
    && (forall i | 0 <= i < |stack| && stack[i] == ".." ::
          !rooted && forall j | 0 <= j < i :: stack[j] == "..")
  }

  lemma {:induction false} NormConcat(rooted: bool, stack: seq<string>, a: seq<string>, b: seq<string>)
    ensures Norm(rooted, stack, a + b) == Norm(rooted, Norm(rooted, stack, a), b)
    decreases a
  {
    if a == [] {
      assert a + b == b;
    } else {
      assert (a + b)[1..] == a[1..] + b;
      NormConcat(rooted, Push(rooted, stack, a[0]), a[1..], b);
    }
  }

  lemma {:induction false} PushNormal(rooted: bool, stack: seq<string>, seg: string)
    requires Normal(rooted, stack) && '/' !in seg
    ensures Normal(rooted, Push(rooted, stack, seg))
  {
    var out := Push(rooted, stack, seg);
    if seg == ".." && stack != [] && stack[|stack| - 1] != ".." {
      assert forall s | s in out :: s in stack;
    } else if seg == ".." && !rooted && stack != [] {
      assert stack[|stack| - 1] == "..";
    }
  }

  lemma {:induction false} NormNormal(rooted: bool, stack: seq<string>, segs: seq<string>)
    requires Normal(rooted, stack)
    requires forall s | s in segs :: '/' !in s
    ensures Normal(rooted, Norm(rooted, stack, segs))
    decreases segs
  {
    if segs != [] {
      assert segs[0] in segs;
      PushNormal(rooted, stack, segs[0]);
      assert forall s | s in segs[1..] :: s in segs;
      NormNormal(rooted, Push(rooted, stack, segs[0]), segs[1..]);
    }
  }

  /** Pushing a stack that continues a clean one appends it unchanged. */
  lemma {:induction false} NormAppends(rooted: bool, stack: seq<string>, segs: seq<string>)
    requires Normal(rooted, stack + segs)
    ensures Norm(rooted, stack, segs) == stack + segs
    decreases segs
  {
    if segs != [] {
      var all := stack + segs;
      assert segs[0] == all[|stack|] && segs[0] in all;
      if segs[0] == ".." && stack != [] {
        assert all[|stack| - 1] == stack[|stack| - 1];
      }
      assert stack + [segs[0]] + segs[1..] == all;
      NormAppends(rooted, stack + [segs[0]], segs[1..]);
    }
  }

  lemma {:induction false} SegsNormal(p: string)
    ensures Normal(Rooted(p), Segs(p))
  {
    SplitParts(p, '/');
    NormNormal(Rooted(p), [], Split(p, '/'));
  }

  /** Printing a clean stack and reading it back loses nothing. */
  lemma {:induction false} RenderRoundTrip(rooted: bool, stack: seq<string>)
    requires Normal(rooted, stack)
    ensures Rooted(Render(rooted, stack)) == rooted
    ensures Segs(Render(rooted, stack)) == stack
  {
    var p := Render(rooted, stack);
    if stack == [] {
      if rooted {
        assert p == "/" && p[1..] == "";
        assert Split(p, '/') == ["", ""];
        assert Norm(true, [], ["", ""]) == Norm(true, [], [""]);
      } else {
        SplitNone(p, '/');
        assert Norm(false, [], ["."]) == Norm(false, Push(false, [], "."), []);
      }
    } else {
      SplitJoin(stack, '/');
      assert stack[0] in stack;
      assert rooted ==> p[1..] == Join(stack, '/');
      assert rooted ==> Split(p, '/') == [""] + stack;
      assert rooted ==> ([""] + stack)[1..] == stack;
      assert [] + stack == stack;
      NormAppends(rooted, [], stack);
    }
  }

  /** `Clean` is idempotent, and its result is in normal form. */
  lemma {:induction false} CleanIdempotent(p: string)
    ensures Clean(Clean(p)) == Clean(p)
    ensures Rooted(Clean(p)) == Rooted(p) && Segs(Clean(p)) == Segs(p)
    ensures Normal(Rooted(p), Segs(p))
  {
    SegsNormal(p);
    RenderRoundTrip(Rooted(p), Segs(p));
  }

  // ------------------------------------------------------------- byte loop

  /** What the byte loop holds in its output buffer for a given stack. */
  function Buffer(rooted: bool, stack: seq<string>): string {
    (if rooted then "/" else "") + Join(stack, '/')
  }

  /** Adding a segment adds a slash first, unless the buffer is still bare. */
  lemma {:induction false} BufferPush(rooted: bool, stack: seq<string>, seg: string)
    ensures Buffer(rooted, stack + [seg]) ==
            Buffer(rooted, stack) + (if stack == [] then "" else "/") + seg
  {
    if stack != [] {
      JoinConcat(stack, [seg], '/');
    } else {
      assert stack + [seg] == [seg];
    }
  }

  lemma {:induction false} BufferGrows(rooted: bool, stack: seq<string>)
    requires Normal(rooted, stack)
    ensures |Buffer(rooted, stack)| == |Buffer(rooted, [])| <==> stack == []
    ensures |Buffer(rooted, stack)| >= |Buffer(rooted, [])|
  {
    if stack != [] {
      assert stack[0] in stack;
    }
  }

  /** How far the buffer shrinks when the last segment is dropped. */
  method Backtrack(out: string, dotdot: nat, ghost rooted: bool, ghost stack: seq<string>, ghost ups: nat)
    returns (w: nat)
    requires Normal(rooted, stack) && ups < |stack|
    requires out == Buffer(rooted, stack) && dotdot == |Buffer(rooted, stack[..ups])|
    requires dotdot < |out|
    requires forall i | 0 <= i < |stack| :: i < ups <==> stack[i] == ".."
    ensures w <= |out| && out[..w] == Buffer(rooted, stack[..|stack| - 1])
  {
    ghost var k := |stack| - 1;
    ghost var base := Buffer(rooted, stack[..k]);
    ghost var last := stack[k];
    assert stack[..k] + [last] == stack;
    assert last in stack;
    BufferPush(rooted, stack[..k], last);
    assert |base| >= dotdot by {
      if ups < k {
        assert stack[..k][..ups] == stack[..ups];
        BufferMonotone(rooted, stack[..k], ups);
      }
    }
    w := |out| - 1;
    while w > dotdot && out[w] != '/'
      invariant |base| <= w < |out|
    {
      w := w - 1;
      if k == 0 {
        assert stack[..ups] == stack[..k];
      }
    }
    assert forall i | |base| < i < |out| :: out[i] in last;
    assert k == 0 ==> stack[..ups] == [] && stack[..k] == [];
    assert k == 0 ==> forall i | |base| <= i < |out| :: out[i] in last;
  }

  lemma {:induction false} BufferMonotone(rooted: bool, stack: seq<string>, n: nat)
    requires n <= |stack|
    ensures |Buffer(rooted, stack[..n])| <= |Buffer(rooted, stack)|
    decreases |stack|
  {
    if n < |stack| {
      var front := stack[..|stack| - 1];
      assert front + [stack[|stack| - 1]] == stack;
      BufferPush(rooted, front, stack[|stack| - 1]);
      assert front[..n] == stack[..n];
      BufferMonotone(rooted, front, n);
    } else {
      assert stack[..n] == stack;
    }
  }

  /** Buffer and mark of the byte loop, for a stack with `ups` leading "..". */
  ghost predicate Loop(rooted: bool, stack: seq<string>, ups: nat, out: string, dotdot: nat) {
    && Normal(rooted, stack)
    && out == Buffer(rooted, stack)
    && ups <= |stack| && dotdot == |Buffer(rooted, stack[..ups])|
    && forall i | 0 <= i < |stack| :: i < ups <==> stack[i] == ".."
  }

  /** The ".." case: drop a name, keep a leading "..", or stay at the root. */
  method Ascend(rooted: bool, out0: string, dotdot0: nat, ghost stack: seq<string>, ghost ups0: nat)
    returns (out: string, dotdot: nat, ghost ups: nat)
    requires Loop(rooted, stack, ups0, out0, dotdot0)
    ensures Loop(rooted, Push(rooted, stack, ".."), ups, out, dotdot)
  {
    out, dotdot, ups := out0, dotdot0, ups0;
    PushNormal(rooted, stack, "..");
    MarkBelow(rooted, stack, ups);
    if |out| > dotdot {
      var w := Backtrack(out, dotdot, rooted, stack, ups);
      out := out[..w];
      assert stack[..|stack| - 1][..ups] == stack[..ups];
    } else if !rooted {
      BufferPush(rooted, stack, "..");
      BufferGrows(rooted, stack);
      if |out| > 0 {
        out := out + "/";
      }
      out := out + "..";
      dotdot := |out|;
      ups := |stack| + 1;
      assert (stack + [".."])[..ups] == stack + [".."];
    }
  }

  /** The next segment is "." (k == 1) or ".." (k == 2). */
  predicate DotAt(path: string, r: nat, k: nat)
    requires 1 <= k <= 2
  {
    && r + k <= |path| && path[r] == '.' && path[r + k - 1] == '.'
    && (r + k == |path| || path[r + k] == '/')
  }

  /** What is still to be read, on top of the stack, gives the final segments. */
  ghost predicate Remains(rooted: bool, stack: seq<string>, path: string, r: nat)
    requires r <= |path|
  {
    Norm(rooted, stack, Split(path[r..], '/')) == Segs(path)
  }

  /** A name on top of the stack is a name at the end of the buffer. */
  lemma {:induction false} DescendLoop(rooted: bool, stack: seq<string>, ups: nat, out: string, dotdot: nat, seg: string)
    requires Loop(rooted, stack, ups, out, dotdot)
    requires '/' !in seg && seg != "" && seg != "." && seg != ".."
    ensures Loop(rooted, Push(rooted, stack, seg), ups, out + (if stack == [] then "" else "/") + seg, dotdot)
  {
    BufferPush(rooted, stack, seg);
    PushNormal(rooted, stack, seg);
    assert (stack + [seg])[..ups] == stack[..ups];
  }

  lemma {:induction false} NotDots(path: string, r0: nat, r: nat)
    requires r0 < r <= |path| && !DotAt(path, r0, 1) && !DotAt(path, r0, 2)
    requires r == |path| || path[r] == '/'
    ensures path[r0..r] != "" && path[r0..r] != "." && path[r0..r] != ".."
  {
    var seg := path[r0..r];
    assert seg[0] == path[r0];
    assert |seg| == 2 ==> seg[1] == path[r0 + 1];
  }

  /** The default case: copy one name, after a slash if one is needed. */
  method Descend(path: string, r0: nat, rooted: bool, out0: string, ghost stack: seq<string>, ghost ups: nat, ghost dotdot: nat)
    returns (r: nat, out: string)
    requires r0 < |path| && path[r0] != '/' && !DotAt(path, r0, 1) && !DotAt(path, r0, 2)
    requires Loop(rooted, stack, ups, out0, dotdot)
    ensures r0 < r <= |path| && '/' !in path[r0..r]
    ensures r == |path| || path[r] == '/'
    ensures Loop(rooted, Push(rooted, stack, path[r0..r]), ups, out, dotdot)
  {
    out := out0;
    BufferGrows(rooted, stack);
    if (rooted && |out| != 1) || (!rooted && |out| != 0) {
      out := out + "/";
    }
    assert out == out0 + if stack == [] then "" else "/";
    r, out := CopyName(path, r0, out);
    NotDots(path, r0, r);
    DescendLoop(rooted, stack, ups, out0, dotdot, path[r0..r]);
  }

  /** The copying loop of that case. */
  method CopyName(path: string, r0: nat, out0: string) returns (r: nat, out: string)
    requires r0 < |path| && path[r0] != '/'
    ensures r0 < r <= |path| && '/' !in path[r0..r] && (r == |path| || path[r] == '/')
    ensures out == out0 + path[r0..r]
  {
    r, out := r0, out0;
    while r < |path| && path[r] != '/'
      invariant r0 <= r <= |path|
      invariant out == out0 + path[r0..r]
      invariant '/' !in path[r0..r]
    {
      out := out + [path[r]];
      assert path[r0..r + 1] == path[r0..r] + [path[r]];
      r := r + 1;
    }
  }

  /** One turn of the byte loop. */
  method Turn(path: string, r0: nat, rooted: bool, out0: string, dotdot0: nat, ghost stack0: seq<string>, ghost ups0: nat)
    returns (r: nat, out: string, dotdot: nat, ghost stack: seq<string>, ghost ups: nat)
    requires r0 < |path| && Loop(rooted, stack0, ups0, out0, dotdot0) && Remains(rooted, stack0, path, r0)
    ensures r0 < r <= |path| && Loop(rooted, stack, ups, out, dotdot) && Remains(rooted, stack, path, r)
  {
    out, dotdot, stack, ups := out0, dotdot0, stack0, ups0;
    if path[r0] == '/' {
      r := r0 + 1;
      SkipSlash(rooted, stack, path, r0);
    } else if DotAt(path, r0, 1) {
      r := r0 + 1;
      assert path[r0..r] == ".";
      SkipSegment(rooted, stack, path, r0, r);
    } else if DotAt(path, r0, 2) {
      r := r0 + 2;
      assert path[r0..r] == "..";
      SkipSegment(rooted, stack, path, r0, r);
      out, dotdot, ups := Ascend(rooted, out, dotdot, stack, ups);
      stack := Push(rooted, stack, "..");
    } else {
      r, out := Descend(path, r0, rooted, out, stack, ups, dotdot);
      SkipSegment(rooted, stack, path, r0, r);
      stack := Push(rooted, stack, path[r0..r]);
    }
  }

  /** The documented byte-at-a-time algorithm: one pass over the input, an
      output buffer that shrinks again on "..", and a mark below which leading
      ".." must not be removed. It computes exactly the segment normaliser. */
  method CleanBytes(path: string) returns (out: string)
    ensures out == Clean(path)
  {
    var n := |path|;
    var rooted := n > 0 && path[0] == '/';
    var r: nat, dotdot: nat := 0, 0;
    out := "";
    ghost var stack: seq<string>, ups: nat := [], 0;
    assert path[0..] == path;
    if rooted {
      out, r, dotdot := "/", 1, 1;
      SkipSlash(rooted, [], path, 0);
    }
    while r < n
      invariant r <= n && Loop(rooted, stack, ups, out, dotdot) && Remains(rooted, stack, path, r)
    {
      r, out, dotdot, stack, ups := Turn(path, r, rooted, out, dotdot, stack, ups);
    }
    Finished(rooted, stack, path);
    if out == "" {
      BufferGrows(rooted, stack);
      out := ".";
    }
  }

  lemma {:induction false} Finished(rooted: bool, stack: seq<string>, path: string)
    requires Remains(rooted, stack, path, |path|)
    ensures stack == Segs(path)
  {
    assert path[|path|..] == "";
    assert Norm(rooted, stack, [""]) == Norm(rooted, Push(rooted, stack, ""), []);
  }

  lemma {:induction false} SkipSlash(rooted: bool, stack: seq<string>, path: string, r: nat)
    requires r < |path| && path[r] == '/'
    ensures Remains(rooted, stack, path, r) == Remains(rooted, stack, path, r + 1)
  {
    var rest := Split(path[r + 1..], '/');
    assert path[r..][1..] == path[r + 1..];
    assert ([""] + rest)[1..] == rest;
  }

  /** Reading the segment path[r..e] is one push of the normaliser. */
  lemma {:induction false} SkipSegment(rooted: bool, stack: seq<string>, path: string, r: nat, e: nat)
    requires r <= e <= |path| && '/' !in path[r..e]
    requires e == |path| || path[e] == '/'
    ensures Remains(rooted, stack, path, r) == Remains(rooted, Push(rooted, stack, path[r..e]), path, e)
  {
    var s, k := path[r..], e - r;
    assert s[..k] == path[r..e] && s[k..] == path[e..];
    SplitFirst(s, k, '/');
    var rest := Split(path[e..], '/');
    var all := [path[r..e]] + rest[1..];
    assert all[1..] == rest[1..];
    assert Norm(rooted, Push(rooted, stack, path[r..e]), rest) ==
           Norm(rooted, Push(rooted, stack, path[r..e]), rest[1..]);
  }

  /** The buffer is longer than the mark exactly when a name can be dropped. */
  lemma {:induction false} MarkBelow(rooted: bool, stack: seq<string>, ups: nat)
    requires Normal(rooted, stack) && ups <= |stack|
    ensures |Buffer(rooted, stack)| > |Buffer(rooted, stack[..ups])| <==> ups < |stack|
  {
    if ups < |stack| {
      var front := stack[..|stack| - 1];
      var last := stack[|stack| - 1];
      assert front + [last] == stack && last in stack;
      BufferPush(rooted, front, last);
      assert front[..ups] == stack[..ups];
      BufferMonotone(rooted, front, ups);
    } else {
      assert stack[..ups] == stack;
    }
  }
}
