/** Lists trimmed at their edges, and lists cut in front of marked elements. */
module Lists {

  ghost predicate Every<T>(p: T -> bool, s: seq<T>) {
    forall i :: 0 <= i < |s| ==> p(s[i])
  }

  ghost predicate Lacks<T>(p: T -> bool, s: seq<T>) {
    forall i :: 0 <= i < |s| ==> !p(s[i])
  }

  // ------------------------------------------------------------------ edges

  function SkipWhile<T>(p: T -> bool, s: seq<T>): seq<T> {
    if s != [] && p(s[0]) then SkipWhile(p, s[1..]) else s
  }

  function DropWhile<T>(p: T -> bool, s: seq<T>): seq<T> {
    if s != [] && p(s[|s| - 1]) then DropWhile(p, s[..|s| - 1]) else s
  }

  /** What is skipped is the longest front in `p`. */
  lemma {:induction false} SkipIs<T>(p: T -> bool, s: seq<T>)
    ensures var r := SkipWhile(p, s);
            && |r| <= |s| && r == s[|s| - |r|..] && (r != [] ==> !p(r[0]))
            && forall i :: 0 <= i < |s| - |r| ==> p(s[i])
  {
    if s != [] && p(s[0]) {
      SkipIs(p, s[1..]);
      SkippedMore(p, s, SkipWhile(p, s[1..]));
    }
  }

  lemma SkippedMore<T>(p: T -> bool, s: seq<T>, r: seq<T>)
    requires s != [] && p(s[0]) && |r| < |s| && r == s[1..][|s| - 1 - |r|..]
    requires forall i :: 0 <= i < |s| - 1 - |r| ==> p(s[1..][i])
    ensures r == s[|s| - |r|..] && forall i :: 0 <= i < |s| - |r| ==> p(s[i])
  {
    forall i | 0 <= i < |s| - |r| ensures p(s[i]) {
      assert i > 0 ==> s[i] == s[1..][i - 1];
    }
  }

  /** What is dropped is the longest end in `p`. */
  lemma {:induction false} DropIs<T>(p: T -> bool, s: seq<T>)
    ensures var r := DropWhile(p, s);
            && |r| <= |s| && r == s[..|r|] && (r != [] ==> !p(r[|r| - 1]))
            && forall i :: |r| <= i < |s| ==> p(s[i])
  {
    if s != [] && p(s[|s| - 1]) {
      DropIs(p, s[..|s| - 1]);
    }
  }

  function TrimBy<T>(p: T -> bool, s: seq<T>): seq<T> {
    DropWhile(p, SkipWhile(p, s))
  }

  /** No element of `p` at either end. */
  ghost predicate Trimmed<T>(p: T -> bool, s: seq<T>) {
    s != [] ==> !p(s[0]) && !p(s[|s| - 1])
  }

  lemma TrimIsTrimmed<T>(p: T -> bool, s: seq<T>)
    ensures Trimmed(p, TrimBy(p, s))
  {
    SkipIs(p, s);
    DropIs(p, SkipWhile(p, s));
  }

  lemma TrimFixed<T>(p: T -> bool, s: seq<T>)
    requires Trimmed(p, s)
    ensures TrimBy(p, s) == s
  {}

  /** Trimming leaves a slice and everything outside it is in `p`. */
  lemma TrimBounds<T>(p: T -> bool, s: seq<T>) returns (a: nat, b: nat)
    ensures a <= b <= |s| && TrimBy(p, s) == s[a..b]
    ensures Every(p, s[..a]) && Every(p, s[b..])
  {
    var t := SkipWhile(p, s);
    SkipIs(p, s);
    DropIs(p, t);
    a := |s| - |t|;
    b := a + |DropWhile(p, t)|;
    assert s[a..b] == t[..b - a];
    forall i | b <= i < |s| ensures p(s[i]) {
      assert s[i] == t[i - a];
    }
  }

  lemma {:induction false} SkipAppend<T>(p: T -> bool, a: seq<T>, b: seq<T>)
    requires Every(p, a)
    ensures SkipWhile(p, a + b) == SkipWhile(p, b)
  {
    if a == [] {
      assert a + b == b;
    } else {
      assert (a + b)[1..] == a[1..] + b;
      SkipAppend(p, a[1..], b);
    }
  }

  lemma {:induction false} DropAppend<T>(p: T -> bool, a: seq<T>, b: seq<T>)
    requires Every(p, b)
    ensures DropWhile(p, a + b) == DropWhile(p, a)
    decreases |b|
  {
    if b == [] {
      assert a + b == a;
    } else {
      assert (a + b)[..|a + b| - 1] == a + b[..|b| - 1];
      DropAppend(p, a, b[..|b| - 1]);
    }
  }

  lemma {:induction false} SkipStops<T>(p: T -> bool, a: seq<T>, b: seq<T>)
    requires SkipWhile(p, a) != []
    ensures SkipWhile(p, a + b) == SkipWhile(p, a) + b
  {
    if p(a[0]) {
      assert (a + b)[1..] == a[1..] + b;
      SkipStops(p, a[1..], b);
    }
  }

  lemma SkipNone<T>(p: T -> bool, s: seq<T>)
    requires SkipWhile(p, s) == []
    ensures Every(p, s)
  {
    SkipIs(p, s);
  }

  lemma TrimAppend<T>(p: T -> bool, core: seq<T>, post: seq<T>)
    requires Every(p, post)
    ensures TrimBy(p, core + post) == TrimBy(p, core)
  {
    hide Every;
    var t := SkipWhile(p, core);
    if t == [] {
      SkipNone(p, core);
      SkipAppend(p, core, post);
      SkipAppend(p, post, []);
      assert post + [] == post;
    } else {
      SkipStops(p, core, post);
      DropAppend(p, t, post);
    }
  }

  /** Trimming finds the core between two edges. */
  lemma TrimCore<T>(p: T -> bool, pre: seq<T>, core: seq<T>, post: seq<T>)
    requires Every(p, pre) && Every(p, post)
    ensures TrimBy(p, pre + core + post) == TrimBy(p, core)
  {
    TrimAppend(p, pre + core, post);
    SkipAppend(p, pre, core);
  }

  /** A list that starts outside `p` is trimmed at its end only. */
  lemma TrimKeepsHead<T>(p: T -> bool, s: seq<T>)
    requires s != [] && !p(s[0])
    ensures 0 < |TrimBy(p, s)| <= |s| && TrimBy(p, s) == s[..|TrimBy(p, s)|]
  {
    assert SkipWhile(p, s) == s;
    DropIs(p, s);
  }

  lemma TrimEmpty<T>(p: T -> bool, s: seq<T>)
    ensures TrimBy(p, s) == [] <==> Every(p, s)
  {
    var a, b := TrimBounds(p, s);
    if a == b {
      assert s == s[..a] + s[b..];
    } else {
      TrimIsTrimmed(p, s);
      assert !p(s[a..b][0]) && s[a] == s[a..b][0];
    }
  }

  // ---------------------------------------------------------------- cutting

  /** How many elements come before the first marked one. */
  function Ahead<T>(m: T -> bool, s: seq<T>): (k: nat)
    ensures k <= |s| && Lacks(m, s[..k]) && (k < |s| ==> m(s[k]))
  {
    if s == [] || m(s[0]) then 0
    else
      var k := 1 + Ahead(m, s[1..]);
      assert forall i :: 0 < i < k ==> s[i] == s[1..][..k - 1][i - 1];
      k
  }

  /** A marked element and the unmarked ones after it. */
  ghost predicate IsChunk<T>(m: T -> bool, c: seq<T>) {
    c != [] && m(c[0]) && Lacks(m, c[1..])
  }

  ghost predicate AreChunks<T>(m: T -> bool, cs: seq<seq<T>>) {
    forall i :: 0 <= i < |cs| ==> IsChunk(m, cs[i])
  }

  function Chunks<T>(m: T -> bool, s: seq<T>): (cs: seq<seq<T>>)
    requires s == [] || m(s[0])
    ensures AreChunks(m, cs)
    ensures Flatten(cs) == s
  {
    if s == [] then []
    else
      var k := 1 + Ahead(m, s[1..]);
      assert s[..k][1..] == s[1..][..k - 1];
      assert s == s[..k] + s[k..];
      [s[..k]] + Chunks(m, s[k..])
  }

  function Flatten<T>(cs: seq<seq<T>>): seq<T> {
    if cs == [] then [] else cs[0] + Flatten(cs[1..])
  }

  lemma {:induction false} AheadIs<T>(m: T -> bool, pre: seq<T>, rest: seq<T>)
    requires Lacks(m, pre) && (rest == [] || m(rest[0]))
    ensures Ahead(m, pre + rest) == |pre|
  {
    if pre == [] {
      assert pre + rest == rest;
    } else {
      assert (pre + rest)[1..] == pre[1..] + rest;
      AheadIs(m, pre[1..], rest);
    }
  }

  lemma {:induction false} AheadSame<S, T>(m: S -> bool, a: seq<S>, n: T -> bool, b: seq<T>)
    requires |a| == |b| && forall i :: 0 <= i < |a| ==> m(a[i]) == n(b[i])
    ensures Ahead(m, a) == Ahead(n, b)
  {
    if a != [] {
      AheadSame(m, a[1..], n, b[1..]);
    }
  }

  lemma ChunkStep<T>(m: T -> bool, c: seq<T>, rest: seq<T>)
    requires IsChunk(m, c) && (rest == [] || m(rest[0]))
    ensures Chunks(m, c + rest) == [c] + Chunks(m, rest)
  {
    var s := c + rest;
    assert s[1..] == c[1..] + rest;
    AheadIs(m, c[1..], rest);
    assert s[..|c|] == c && s[|c|..] == rest;
  }

  lemma FlattenHead<T>(m: T -> bool, cs: seq<seq<T>>)
    requires AreChunks(m, cs)
    ensures Flatten(cs) == [] || m(Flatten(cs)[0])
  {
    if cs != [] {
      assert Flatten(cs)[0] == cs[0][0];
    }
  }

  /** Cutting undoes concatenation. */
  lemma {:induction false} ChunksOfFlatten<T>(m: T -> bool, cs: seq<seq<T>>)
    requires AreChunks(m, cs)
    ensures Flatten(cs) == [] || m(Flatten(cs)[0])
    ensures Chunks(m, Flatten(cs)) == cs
  {
    FlattenHead(m, cs);
    if cs != [] {
      ChunksOfFlatten(m, cs[1..]);
      ChunkStep(m, cs[0], Flatten(cs[1..]));
    }
  }

  lemma {:induction false} FlattenAppend<T>(a: seq<seq<T>>, b: seq<seq<T>>)
    ensures Flatten(a + b) == Flatten(a) + Flatten(b)
  {
    if a == [] {
      assert a + b == b;
    } else {
      assert (a + b)[1..] == a[1..] + b;
      FlattenAppend(a[1..], b);
      assert Flatten(a + b) == a[0] + (Flatten(a[1..]) + Flatten(b));
    }
  }
}
