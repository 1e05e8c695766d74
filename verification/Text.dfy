/** Character classes and trimming as JavaScript strings have them, and the
    `normalize` function of the ledger. */
module Text {

  /** `\s`, which is also what `trim` removes. */
  predicate IsSpace(c: char) {
    var n := c as int;
    || 9 <= n <= 13 || n == 32 || n == 0xA0 || n == 0x1680
    || 0x2000 <= n <= 0x200A || n == 0x2028 || n == 0x2029
    || n == 0x202F || n == 0x205F || n == 0x3000 || n == 0xFEFF
  }

  predicate AllSpace(s: string) {
    forall i :: 0 <= i < |s| ==> IsSpace(s[i])
  }

  function TrimStart(s: string): (r: string)
    ensures |r| <= |s|
  {
    if s != [] && IsSpace(s[0]) then TrimStart(s[1..]) else s
  }

  function TrimEnd(s: string): (r: string)
    ensures |r| <= |s|
  {
    if s != [] && IsSpace(s[|s| - 1]) then TrimEnd(s[..|s| - 1]) else s
  }

  /** Exactly the white space in front goes. */
  lemma {:induction false} TrimStartIs(s: string)
    ensures var r := TrimStart(s);
            |r| <= |s| && r == s[|s| - |r|..] && AllSpace(s[..|s| - |r|]) && (r != [] ==> !IsSpace(r[0]))
  {
    hide IsSpace;
    if s != [] && IsSpace(s[0]) {
      TrimStartIs(s[1..]);
      var n := |s| - |TrimStart(s)|;
      forall i | 0 <= i < n ensures IsSpace(s[..n][i]) {
        assert i > 0 ==> s[i] == s[1..][..n - 1][i - 1];
      }
    }
  }

  /** Exactly the white space at the end goes. */
  lemma {:induction false} TrimEndIs(s: string)
    ensures var r := TrimEnd(s);
            |r| <= |s| && r == s[..|r|] && AllSpace(s[|r|..]) && (r != [] ==> !IsSpace(r[|r| - 1]))
  {
    hide IsSpace;
    if s != [] && IsSpace(s[|s| - 1]) {
      TrimEndIs(s[..|s| - 1]);
      var r := TrimEnd(s);
      forall i | 0 <= i < |s[|r|..]| ensures IsSpace(s[|r|..][i]) {
        assert |r| + i < |s| - 1 ==> s[|r|..][i] == s[..|s| - 1][|r|..][i];
      }
    }
  }

  lemma {:induction false} TrimStartSkips(pre: string, s: string)
    requires AllSpace(pre) && s != [] && !IsSpace(s[0])
    ensures TrimStart(pre + s) == s
  {
    hide IsSpace;
    if pre == [] {
      assert pre + s == s;
    } else {
      assert (pre + s)[1..] == pre[1..] + s;
      TrimStartSkips(pre[1..], s);
    }
  }

  lemma {:induction false} TrimEndSkips(s: string, post: string)
    requires AllSpace(post)
    ensures TrimEnd(s + post) == TrimEnd(s)
    decreases |post|
  {
    hide IsSpace;
    if post == [] {
      assert s + post == s;
    } else {
      assert (s + post)[..|s + post| - 1] == s + post[..|post| - 1];
      TrimEndSkips(s, post[..|post| - 1]);
    }
  }

  function Trim(s: string): string {
    TrimEnd(TrimStart(s))
  }

  lemma TrimEmpty(s: string)
    ensures Trim(s) == [] <==> AllSpace(s)
  {
    TrimStartIs(s);
    var r := TrimStart(s);
    var k := |s| - |r|;
    if AllSpace(s) {
    } else {
      var i :| 0 <= i < |s| && !IsSpace(s[i]);
      TrimEndKeepsHead(r);
    }
  }

  lemma TrimEndKeepsHead(r: string)
    requires r != [] && !IsSpace(r[0])
    ensures TrimEnd(r) != [] && TrimEnd(r)[0] == r[0]
  {
    hide IsSpace, TrimEnd;
    TrimEndIs(r);
    var k := |TrimEnd(r)|;
    assert forall i :: k <= i < |r| ==> r[i] == r[k..][i - k];
  }

  /** A string that starts and ends in a visible character is its own trim. */
  lemma TrimFixed(s: string)
    requires s != [] ==> !IsSpace(s[0]) && !IsSpace(s[|s| - 1])
    ensures Trim(s) == s
  {}

  lemma TrimIsTrimmed(s: string)
    ensures Trim(s) != [] ==> !IsSpace(Trim(s)[0]) && !IsSpace(Trim(s)[|Trim(s)| - 1])
    ensures Trim(Trim(s)) == Trim(s)
  {
    TrimStartIs(s);
    TrimEndIs(TrimStart(s));
    if TrimStart(s) != [] { TrimEndKeepsHead(TrimStart(s)); }
    TrimFixed(Trim(s));
  }

  // -------------------------------------------------------------- normalize

  /** `toLowerCase`, on the letters of ASCII. */
  function LowerChar(c: char): char {
    if 'A' <= c <= 'Z' then c - 'A' + 'a' else c
  }

  function Lower(s: string): (r: string)
    ensures |r| == |s| && forall i :: 0 <= i < |s| ==> r[i] == LowerChar(s[i])
  {
    seq(|s|, i requires 0 <= i < |s| => LowerChar(s[i]))
  }

  /** `replace(/\s+/g, " ")` */
  function Collapse(s: string): string
    decreases |s|
  {
    if s == [] then []
    else if !IsSpace(s[0]) then [s[0]] + Collapse(s[1..])
    else
      assert TrimStart(s) == TrimStart(s[1..]);
      [' '] + Collapse(TrimStart(s))
  }

  function Normalize(s: string): string {
    Lower(Collapse(Trim(s)))
  }

  // The partner of `Normalize`: the words of a text, without regard to what separates them.

  function WordLength(s: string): (k: nat)
    ensures k <= |s| && (forall i :: 0 <= i < k ==> !IsSpace(s[i])) && (k < |s| ==> IsSpace(s[k]))
  {
    if s == [] || IsSpace(s[0]) then 0 else 1 + WordLength(s[1..])
  }

  function Words(s: string): (ws: seq<string>)
    decreases |s|
  {
    var t := TrimStart(s);
    TrimStartIs(s);
    if t == [] then [] else [t[..WordLength(t)]] + Words(t[WordLength(t)..])
  }

  predicate IsWord(w: string) {
    w != [] && forall i :: 0 <= i < |w| ==> !IsSpace(w[i])
  }

  lemma FirstIsWord(t: string)
    requires t != [] && !IsSpace(t[0])
    ensures IsWord(t[..WordLength(t)])
  {}

  lemma {:induction false} WordsAreWords(s: string)
    ensures forall i :: 0 <= i < |Words(s)| ==> IsWord(Words(s)[i])
    decreases |s|
  {
    TrimStartIs(s);
    var t := TrimStart(s);
    if t != [] {
      hide IsSpace, IsWord;
      FirstIsWord(t);
      WordsAreWords(t[WordLength(t)..]);
    }
  }

  function Join(ws: seq<string>): string {
    if ws == [] then [] else if |ws| == 1 then ws[0] else ws[0] + ([' '] + Join(ws[1..]))
  }

  lemma {:induction false} JoinInjective(a: seq<string>, b: seq<string>)
    requires forall i :: 0 <= i < |a| ==> IsWord(a[i])
    requires forall i :: 0 <= i < |b| ==> IsWord(b[i])
    requires Join(a) == Join(b)
    ensures a == b
  {
    if a != [] && b != [] {
      FirstWord(a); FirstWord(b);
      if |a| > 1 {
        assert Join(a)[|a[0]|..][1..] == Join(a[1..]);
        assert Join(b)[|b[0]|..][1..] == Join(b[1..]);
        JoinInjective(a[1..], b[1..]);
        assert a == [a[0]] + a[1..] && b == [b[0]] + b[1..];
      }
    }
  }

  lemma FirstWord(a: seq<string>)
    requires a != [] && IsWord(a[0])
    ensures |a[0]| <= |Join(a)| && WordLength(Join(a)) == |a[0]| && Join(a)[..|a[0]|] == a[0]
    ensures |a| == 1 <==> |Join(a)| == |a[0]|
    ensures |a| > 1 ==> Join(a)[|a[0]|..] == [' '] + Join(a[1..])
  {
    var tail := if |a| == 1 then [] else [' '] + Join(a[1..]);
    assert Join(a) == a[0] + tail;
    WordLengthAppend(a[0], tail);
  }

  lemma {:induction false} WordLengthAppend(w: string, tail: string)
    requires forall i :: 0 <= i < |w| ==> !IsSpace(w[i])
    requires tail == [] || IsSpace(tail[0])
    ensures WordLength(w + tail) == |w|
  {
    if w != [] {
      assert (w + tail)[1..] == w[1..] + tail;
      WordLengthAppend(w[1..], tail);
    }
  }

  lemma {:induction false} CollapseAppend(w: string, tail: string)
    requires forall i :: 0 <= i < |w| ==> !IsSpace(w[i])
    ensures Collapse(w + tail) == w + Collapse(tail)
  {
    if w == [] {
      assert w + tail == tail;
    } else {
      assert (w + tail)[1..] == w[1..] + tail;
      CollapseAppend(w[1..], tail);
    }
  }

  lemma {:induction false} TrimEndAppend(w: string, tail: string)
    requires !AllSpace(tail)
    ensures TrimEnd(w + tail) == w + TrimEnd(tail)
    decreases |tail|
  {
    var last := tail[|tail| - 1];
    assert tail == tail[..|tail| - 1] + [last];
    assert (w + tail)[..|w + tail| - 1] == w + tail[..|tail| - 1];
    if IsSpace(last) {
      TrimEndAppend(w, tail[..|tail| - 1]);
    }
  }

  lemma {:induction false} TrimEndDropsSpace(w: string, tail: string)
    requires AllSpace(tail) && (w != [] ==> !IsSpace(w[|w| - 1]))
    ensures TrimEnd(w + tail) == w
    decreases |tail|
  {
    if tail == [] {
      assert w + tail == w;
    } else {
      assert (w + tail)[..|w + tail| - 1] == w + tail[..|tail| - 1];
      TrimEndDropsSpace(w, tail[..|tail| - 1]);
    }
  }

  lemma TrimCommutes(s: string)
    ensures TrimStart(TrimEnd(s)) == Trim(s)
  {
    TrimStartIs(s);
    var r := TrimStart(s);
    var pre := s[..|s| - |r|];
    assert s == pre + r;
    if r == [] {
      assert pre == s && s == [] + s;
      TrimEndDropsSpace([], s);
    } else {
      TrimEndAppend(pre, r);
      TrimEndKeepsHead(r);
      TrimEmptyStart(pre, TrimEnd(r));
    }
  }

  lemma {:induction false} TrimEmptyStart(pre: string, r: string)
    requires AllSpace(pre) && (r != [] ==> !IsSpace(r[0]))
    ensures TrimStart(pre + r) == r
  {
    if pre == [] {
      assert pre + r == r;
    } else {
      assert (pre + r)[1..] == pre[1..] + r;
      TrimEmptyStart(pre[1..], r);
    }
  }

  /** Trimming and collapsing leaves the words, one space apart. */
  lemma {:induction false} CollapseIsJoin(s: string)
    ensures Collapse(Trim(s)) == Join(Words(s))
    decreases |s|
  {
    TrimStartIs(s);
    var t := TrimStart(s);
    if t != [] {
      var w, u := t[..WordLength(t)], t[WordLength(t)..];
      assert w + u == t;
      assert Words(s) == [w] + Words(u);
      CollapseIsJoin(u);
      FirstOfWords(w, u);
    }
  }

  lemma FirstOfWords(w: string, u: string)
    requires IsWord(w) && (u != [] ==> IsSpace(u[0]))
    requires Collapse(Trim(u)) == Join(Words(u))
    ensures Collapse(TrimEnd(w + u)) == Join([w] + Words(u))
  {
    if AllSpace(u) {
      OnlyWord(w, u);
    } else {
      CollapseLaterWords(w, u);
      WordsOfVisible(u);
      JoinCons(w, Words(u));
    }
  }

  lemma JoinCons(w: string, ws: seq<string>)
    requires ws != []
    ensures Join([w] + ws) == w + ([' '] + Join(ws))
  {
    assert ([w] + ws)[1..] == ws;
  }

  lemma OnlyWord(w: string, u: string)
    requires IsWord(w) && AllSpace(u)
    ensures Collapse(TrimEnd(w + u)) == w && Words(u) == []
  {
    TrimEndDropsSpace(w, u);
    CollapseAppend(w, []);
    assert w + [] == w;
    SpaceHasNoWords(u);
  }

  lemma SpaceHasNoWords(u: string)
    requires AllSpace(u)
    ensures Words(u) == []
  {
    TrimEmptyStart(u, []);
    assert u + [] == u;
  }

  lemma WordsOfVisible(u: string)
    requires !AllSpace(u)
    ensures Words(u) != []
  {
    TrimStartIs(u);
    assert u[..|u|] == u;
  }

  lemma CollapseLaterWords(w: string, u: string)
    requires forall i :: 0 <= i < |w| ==> !IsSpace(w[i])
    requires !AllSpace(u) && IsSpace(u[0])
    ensures Collapse(TrimEnd(w + u)) == w + ([' '] + Collapse(Trim(u)))
  {
    TrimEndIs(u);
    TrimEndAppend(w, u);
    var v := TrimEnd(u);
    CollapseAppend(w, v);
    TrimCommutes(u);
    TrimEmpty(u);
    assert v != [];
  }

  function LoweredWords(s: string): seq<string> {
    var ws := Words(s);
    seq(|ws|, i requires 0 <= i < |ws| => Lower(ws[i]))
  }

  lemma {:induction false} LowerJoin(ws: seq<string>)
    ensures Lower(Join(ws)) == Join(seq(|ws|, i requires 0 <= i < |ws| => Lower(ws[i])))
  {
    var ls := seq(|ws|, i requires 0 <= i < |ws| => Lower(ws[i]));
    if |ws| > 1 {
      LowerJoin(ws[1..]);
      var rest := ws[1..];
      assert ls[1..] == seq(|rest|, i requires 0 <= i < |rest| => Lower(rest[i]));
      assert Lower(Join(ws)) == Lower(ws[0]) + ([' '] + Lower(Join(rest)));
    }
  }

  lemma NormalizeIsJoin(s: string)
    ensures Normalize(s) == Join(LoweredWords(s))
    ensures forall i :: 0 <= i < |LoweredWords(s)| ==> IsWord(LoweredWords(s)[i])
  {
    CollapseIsJoin(s);
    LowerJoin(Words(s));
    WordsAreWords(s);
    var ws := Words(s);
    forall i | 0 <= i < |ws| ensures IsWord(Lower(ws[i])) {
      LowerWord(ws[i]);
    }
  }

  lemma LowerWord(w: string)
    requires IsWord(w)
    ensures IsWord(Lower(w))
  {
    forall i | 0 <= i < |w| ensures !IsSpace(Lower(w)[i]) {
      assert Lower(w)[i] == LowerChar(w[i]);
    }
  }

  /** Two texts normalize alike exactly when they have the same words up to letter case:
      spacing is immaterial, and nothing else is lost. */
  lemma NormalizeMeaning(a: string, b: string)
    ensures Normalize(a) == Normalize(b) <==> LoweredWords(a) == LoweredWords(b)
  {
    NormalizeIsJoin(a);
    NormalizeIsJoin(b);
    if Normalize(a) == Normalize(b) {
      JoinInjective(LoweredWords(a), LoweredWords(b));
    }
  }
}
