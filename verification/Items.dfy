/** List items: a marked line with the lines that follow it, blank edges trimmed
    (scripts/fix-changelogs.ts:234-264, 359-380). `m` marks a line, `p` is blankness. */
module Items {
  import opened Lists

  ghost predicate Apart<T(!new)>(m: T -> bool, p: T -> bool) {
    forall x :: m(x) ==> !p(x)
  }

  function Preamble<T>(m: T -> bool, s: seq<T>): seq<T> {
    s[..Ahead(m, s)]
  }

  function Cut<T>(m: T -> bool, s: seq<T>): seq<seq<T>> {
    Chunks(m, s[Ahead(m, s)..])
  }

  function TrimEach<T>(p: T -> bool, cs: seq<seq<T>>): (r: seq<seq<T>>)
    ensures |r| == |cs| && forall i :: 0 <= i < |cs| ==> r[i] == TrimBy(p, cs[i])
  {
    seq(|cs|, i requires 0 <= i < |cs| => TrimBy(p, cs[i]))
  }

  function ItemsOf<T>(m: T -> bool, p: T -> bool, s: seq<T>): seq<seq<T>> {
    TrimEach(p, Cut(m, s))
  }

  lemma CutParts<T>(m: T -> bool, s: seq<T>)
    ensures s == Preamble(m, s) + Flatten(Cut(m, s)) && Lacks(m, Preamble(m, s)) && AreChunks(m, Cut(m, s))
  {}

  lemma CutIs<T>(m: T -> bool, pre: seq<T>, cs: seq<seq<T>>)
    requires Lacks(m, pre) && AreChunks(m, cs)
    ensures Preamble(m, pre + Flatten(cs)) == pre && Cut(m, pre + Flatten(cs)) == cs
  {
    ChunksOfFlatten(m, cs);
    AheadIs(m, pre, Flatten(cs));
    assert (pre + Flatten(cs))[|pre|..] == Flatten(cs);
  }

  /** `cs` with more unmarked lines after its last chunk. */
  function ExtendLast<T>(cs: seq<seq<T>>, post: seq<T>): seq<seq<T>>
    requires cs != []
  {
    cs[..|cs| - 1] + [cs[|cs| - 1] + post]
  }

  lemma ChunkAppend<T>(m: T -> bool, c: seq<T>, post: seq<T>)
    requires IsChunk(m, c) && Lacks(m, post)
    ensures IsChunk(m, c + post)
  {
    assert (c + post)[1..] == c[1..] + post;
  }

  lemma ExtendLastChunks<T>(m: T -> bool, cs: seq<seq<T>>, post: seq<T>)
    requires cs != [] && AreChunks(m, cs) && Lacks(m, post)
    ensures AreChunks(m, ExtendLast(cs, post))
    ensures Flatten(ExtendLast(cs, post)) == Flatten(cs) + post
  {
    var init, last := cs[..|cs| - 1], cs[|cs| - 1];
    ChunkAppend(m, last, post);
    FlattenAppend(init, [last]);
    FlattenAppend(init, [last + post]);
    assert cs == init + [last];
    assert Flatten([last]) == last && Flatten([last + post]) == last + post;
    assert Flatten(init) + (last + post) == Flatten(init) + last + post;
  }

  lemma ExtendLastTrims<T>(p: T -> bool, cs: seq<seq<T>>, post: seq<T>)
    requires cs != [] && Every(p, post)
    ensures TrimEach(p, ExtendLast(cs, post)) == TrimEach(p, cs)
  {
    hide TrimBy, Every;
    var init, last := cs[..|cs| - 1], cs[|cs| - 1];
    TrimAppend(p, last, post);
    assert cs == init + [last];
    TrimEachAppend(p, init, [last]);
    TrimEachAppend(p, init, [last + post]);
    assert TrimEach(p, [last]) == TrimEach(p, [last + post]);
  }

  lemma EveryLacks<T(!new)>(m: T -> bool, p: T -> bool, s: seq<T>)
    requires Apart(m, p) && Every(p, s)
    ensures Lacks(m, s)
  {}

  lemma JoinWithoutItems<T>(m: T -> bool, p: T -> bool, a: seq<T>, b: seq<T>)
    requires Lacks(m, a)
    ensures Cut(m, a + b) == Cut(m, b) && ItemsOf(m, p, a + b) == ItemsOf(m, p, b)
  {
    hide Lacks, AreChunks, Cut, Preamble, Flatten, TrimBy;
    var pb, cb := Preamble(m, b), Cut(m, b);
    CutParts(m, b);
    LacksAppend(m, a, pb);
    assert a + b == (a + pb) + Flatten(cb);
    CutIs(m, a + pb, cb);
  }

  lemma JoinWithItems<T>(m: T -> bool, p: T -> bool, a: seq<T>, mid: seq<T>, b: seq<T>)
    requires Cut(m, a) != [] && Lacks(m, mid) && Every(p, mid)
    ensures ItemsOf(m, p, a + (mid + Flatten(Cut(m, b)))) == ItemsOf(m, p, a) + ItemsOf(m, p, b)
  {
    hide Every, Lacks, AreChunks, ExtendLast, Flatten;
    var pa, ca, cb := Preamble(m, a), Cut(m, a), Cut(m, b);
    CutParts(m, a);
    CutParts(m, b);
    var ce := ExtendLast(ca, mid);
    ExtendLastChunks(m, ca, mid);
    ExtendLastTrims(p, ca, mid);
    FlattenAppend(ce, cb);
    ChunksAppend(m, ce, cb);
    Regroup(pa, Flatten(ca), mid, Flatten(cb));
    CutIs(m, pa, ce + cb);
    TrimEachAppend(p, ce, cb);
  }

  lemma Regroup<T>(a: seq<T>, b: seq<T>, c: seq<T>, d: seq<T>)
    ensures (a + b) + (c + d) == a + ((b + c) + d)
  {}

  /** The items of two bodies joined: those of the first and then those of the second, when
      nothing of the second can fall under the last item of the first. */
  lemma ItemsOfJoin<T(!new)>(m: T -> bool, p: T -> bool, a: seq<T>, sep: seq<T>, b: seq<T>)
    requires Apart(m, p) && Every(p, sep)
    requires Cut(m, a) == [] || Every(p, Preamble(m, b))
    ensures ItemsOf(m, p, a + sep + b) == ItemsOf(m, p, a) + ItemsOf(m, p, b)
  {
    hide Every, Lacks, AreChunks, Apart, Flatten, ItemsOf, Cut, Preamble;
    CutParts(m, a);
    CutParts(m, b);
    EveryLacks(m, p, sep);
    if Cut(m, a) == [] {
      NoItems(m, p, a);
      assert [] + ItemsOf(m, p, b) == ItemsOf(m, p, b);
      LacksAppend(m, a, sep);
      JoinWithoutItems(m, p, a + sep, b);
    } else {
      var pb := Preamble(m, b);
      LacksAppend(m, sep, pb);
      EveryAppend(p, sep, pb);
      JoinWithItems(m, p, a, sep + pb, b);
      assert a + sep + b == a + ((sep + pb) + Flatten(Cut(m, b)));
    }
  }

  lemma NoItems<T>(m: T -> bool, p: T -> bool, s: seq<T>)
    requires Cut(m, s) == []
    ensures ItemsOf(m, p, s) == [] && Lacks(m, s)
  {}

  lemma LacksAppend<T>(m: T -> bool, a: seq<T>, b: seq<T>)
    requires Lacks(m, a) && Lacks(m, b)
    ensures Lacks(m, a + b)
  {}

  lemma EveryAppend<T>(p: T -> bool, a: seq<T>, b: seq<T>)
    requires Every(p, a) && Every(p, b)
    ensures Every(p, a + b)
  {}

  lemma ChunksAppend<T>(m: T -> bool, a: seq<seq<T>>, b: seq<seq<T>>)
    requires AreChunks(m, a) && AreChunks(m, b)
    ensures AreChunks(m, a + b)
  {}

  lemma TrimEachAppend<T>(p: T -> bool, a: seq<seq<T>>, b: seq<seq<T>>)
    ensures TrimEach(p, a + b) == TrimEach(p, a) + TrimEach(p, b)
  {}

  lemma NoMarks<T>(m: T -> bool, s: seq<T>)
    requires Lacks(m, s)
    ensures Cut(m, s) == [] && Preamble(m, s) == s
  {
    assert s + Flatten([]) == s;
    CutIs(m, s, []);
  }

  /** Blank edges do not matter to the items. */
  lemma ItemsOfTrim<T(!new)>(m: T -> bool, p: T -> bool, s: seq<T>)
    requires Apart(m, p)
    ensures ItemsOf(m, p, TrimBy(p, s)) == ItemsOf(m, p, s)
  {
    hide Apart, Every, Lacks, ItemsOf, TrimBy;
    var a, b := TrimBounds(p, s);
    var pre, core, post := s[..a], s[a..b], s[b..];
    assert s == pre + (core + post);
    EveryLacks(m, p, pre);
    JoinWithoutItems(m, p, pre, core + post);
    ItemsOfEdge(m, p, core, post);
  }

  lemma NothingIsEvery<T>(p: T -> bool)
    ensures Every(p, []) && Lacks(p, [])
  {}

  lemma ItemsOfEdge<T(!new)>(m: T -> bool, p: T -> bool, core: seq<T>, post: seq<T>)
    requires Apart(m, p) && Every(p, post)
    ensures ItemsOf(m, p, core + post) == ItemsOf(m, p, core)
  {
    hide Apart, Every;
    assert core + post == core + post + [];
    NoMarks(m, []);
    NothingIsEvery(p);
    ItemsOfJoin(m, p, core, post, []);
    assert ItemsOf(m, p, core) + [] == ItemsOf(m, p, core);
  }

  // ---------------------------------------------------------------- compaction

  /** `compactAdjacentListSpacing`: a body that starts with an item loses the blank lines
      between its items; any other body is only trimmed. */
  function Compact<T>(m: T -> bool, p: T -> bool, s: seq<T>): seq<T> {
    var t := TrimBy(p, s);
    if t != [] && m(t[0]) then Flatten(ItemsOf(m, p, t)) else t
  }

  /** A chunk keeps its marked line when it is trimmed: only blank lines at its end go. */
  lemma TrimChunk<T(!new)>(m: T -> bool, p: T -> bool, c: seq<T>)
    requires Apart(m, p) && IsChunk(m, c)
    ensures IsChunk(m, TrimBy(p, c)) && TrimBy(p, c)[0] == c[0]
    ensures Trimmed(p, TrimBy(p, c))
  {
    hide TrimBy;
    TrimKeepsHead(p, c);
    var t := TrimBy(p, c);
    assert forall i :: 0 <= i < |t| - 1 ==> t[1..][i] == c[1..][i];
    TrimIsTrimmed(p, c);
  }

  lemma TrimChunks<T(!new)>(m: T -> bool, p: T -> bool, cs: seq<seq<T>>)
    requires Apart(m, p) && AreChunks(m, cs)
    ensures AreChunks(m, TrimEach(p, cs)) && TrimEach(p, TrimEach(p, cs)) == TrimEach(p, cs)
    ensures cs != [] ==> TrimEach(p, cs)[0] != [] && TrimEach(p, cs)[0][0] == cs[0][0]
    ensures forall i :: 0 <= i < |cs| ==> Trimmed(p, TrimEach(p, cs)[i])
  {
    hide Apart, IsChunk, Trimmed, TrimBy;
    forall i | 0 <= i < |cs|
      ensures IsChunk(m, TrimEach(p, cs)[i]) && TrimBy(p, TrimEach(p, cs)[i]) == TrimEach(p, cs)[i]
      ensures Trimmed(p, TrimEach(p, cs)[i])
    {
      TrimChunk(m, p, cs[i]);
      TrimFixed(p, TrimBy(p, cs[i]));
    }
    if cs != [] {
      TrimChunk(m, p, cs[0]);
      ChunkNonEmpty(m, TrimBy(p, cs[0]));
    }
  }

  lemma ChunkNonEmpty<T>(m: T -> bool, c: seq<T>)
    requires IsChunk(m, c)
    ensures c != [] && m(c[0])
  {}

  /** Items laid end to end. */
  lemma FlatItems<T(!new)>(m: T -> bool, p: T -> bool, cs: seq<seq<T>>)
    requires Apart(m, p) && AreChunks(m, cs)
    ensures Preamble(m, Flatten(TrimEach(p, cs))) == [] && Cut(m, Flatten(TrimEach(p, cs))) == TrimEach(p, cs)
    ensures ItemsOf(m, p, Flatten(TrimEach(p, cs))) == TrimEach(p, cs)
  {
    hide Apart, IsChunk, Trimmed, TrimBy;
    TrimChunks(m, p, cs);
    assert [] + Flatten(TrimEach(p, cs)) == Flatten(TrimEach(p, cs));
    CutIs(m, [], TrimEach(p, cs));
  }

  /** Compaction keeps every item. */
  lemma CompactItems<T(!new)>(m: T -> bool, p: T -> bool, s: seq<T>)
    requires Apart(m, p)
    ensures ItemsOf(m, p, Compact(m, p, s)) == ItemsOf(m, p, s)
  {
    hide Apart, TrimBy;
    ItemsOfTrim(m, p, s);
    CutParts(m, TrimBy(p, s));
    FlatItems(m, p, Cut(m, TrimBy(p, s)));
  }

  lemma HeadMarked<T>(m: T -> bool, s: seq<T>)
    requires s != [] && m(s[0])
    ensures Preamble(m, s) == [] && Cut(m, s) != [] && Cut(m, s)[0] != [] && Cut(m, s)[0][0] == s[0]
  {
    CutParts(m, s);
  }

  lemma {:induction false} FlatItemsTrimmed<T>(m: T -> bool, p: T -> bool, cs: seq<seq<T>>)
    requires cs != [] && forall i :: 0 <= i < |cs| ==> cs[i] != [] && Trimmed(p, cs[i])
    ensures Flatten(cs) != [] && Flatten(cs)[0] == cs[0][0] && Trimmed(p, Flatten(cs))
  {
    if |cs| > 1 {
      FlatItemsTrimmed(m, p, cs[1..]);
    }
  }

  /** What compaction leaves is trimmed, and blank only for a blank body. */
  lemma CompactShape<T(!new)>(m: T -> bool, p: T -> bool, s: seq<T>)
    requires Apart(m, p)
    ensures Trimmed(p, Compact(m, p, s)) && (Compact(m, p, s) == [] <==> TrimBy(p, s) == [])
    ensures Compact(m, p, s) != [] ==> Compact(m, p, s)[0] == TrimBy(p, s)[0]
  {
    hide Apart, TrimBy, Trimmed;
    var t := TrimBy(p, s);
    TrimIsTrimmed(p, s);
    if t != [] && m(t[0]) {
      HeadMarked(m, t);
      CutParts(m, t);
      var cs := Cut(m, t);
      TrimChunks(m, p, cs);
      forall i | 0 <= i < |cs| ensures TrimEach(p, cs)[i] != [] {
        ChunkNonEmpty(m, TrimEach(p, cs)[i]);
      }
      FlatItemsTrimmed(m, p, TrimEach(p, cs));
    }
  }

  /** Compacting twice is compacting once. */
  lemma CompactTwice<T(!new)>(m: T -> bool, p: T -> bool, s: seq<T>)
    requires Apart(m, p)
    ensures Compact(m, p, Compact(m, p, s)) == Compact(m, p, s)
  {
    hide Apart, TrimBy, Trimmed;
    var t, c := TrimBy(p, s), Compact(m, p, s);
    CompactShape(m, p, s);
    TrimFixed(p, c);
    if t != [] && m(t[0]) {
      CutParts(m, t);
      FlatItems(m, p, Cut(m, t));
    }
  }

  lemma CompactTrim<T>(m: T -> bool, p: T -> bool, s: seq<T>)
    ensures Compact(m, p, TrimBy(p, s)) == Compact(m, p, s)
  {
    TrimIsTrimmed(p, s);
    TrimFixed(p, TrimBy(p, s));
  }
}
