/** What promotion moves: exactly the released items whose first line is promotable
    (scripts/fix-changelogs.ts:531-561). */
module ChangelogPromotion {
  import opened Basics
  import opened Lists
  import opened Items
  import opened ChangelogText
  import opened ChangelogDocument
  import opened ChangelogFix
  import opened ChangelogItems
  import opened ChangelogOrder
  import opened ChangelogStability

  /** How far below the heading's next line the q-th item of a body begins. */
  function ItemStart(ls: Lines, q: nat): nat
    requires q <= |Cut(IsBullet, ls)|
  {
    |Preamble(IsBullet, ls)| + |Flatten(Cut(IsBullet, ls)[..q])|
  }

  /** The item is the q-th one of the j-th subsection, and its first line has the number `n` when the
      first subsection's heading is at `line`. */
  ghost predicate ItemAt(subs: seq<Sub>, line: nat, j: nat, q: nat, b: Lines, n: nat) {
    && j < |subs| && q < |Cut(IsBullet, subs[j].lines)|
    && b == TrimBlank(Cut(IsBullet, subs[j].lines)[q])
    && n == SubLine(subs, line, j) + ItemStart(subs[j].lines, q)
  }

  /** One of the subsections has the item at a line that `promotable` has, or at one it has not. */
  ghost predicate HasItem(subs: seq<Sub>, line: nat, promotable: set<nat>, taken: bool, b: Lines) {
    exists j: nat, q: nat, n: nat :: ItemAt(subs, line, j, q, b, n) && (n in promotable <==> taken)
  }

  /** The q-th chunk, of those that begin at `line`, is `b` at a line that `promotable` has, or has not. */
  ghost predicate ChunkIs(cs: seq<Lines>, line: nat, promotable: set<nat>, taken: bool, b: Lines, q: nat) {
    q < |cs| && b == TrimBlank(cs[q]) && (line + |Flatten(cs[..q])| in promotable <==> taken)
  }

  ghost predicate ChunkAt(cs: seq<Lines>, line: nat, promotable: set<nat>, taken: bool, b: Lines) {
    exists q: nat :: ChunkIs(cs, line, promotable, taken, b, q)
  }

  lemma ChunkIsShifts(cs: seq<Lines>, line: nat, promotable: set<nat>, taken: bool, b: Lines, q: nat)
    requires cs != []
    ensures ChunkIs(cs, line, promotable, taken, b, q + 1) <==> ChunkIs(cs[1..], line + |cs[0]|, promotable, taken, b, q)
    ensures ChunkIs(cs, line, promotable, taken, b, 0) <==> b == TrimBlank(cs[0]) && (line in promotable <==> taken)
  {
    hide TrimBlank;
    assert cs[..0] == [] && |Flatten(cs[..0])| == 0;
    if q + 1 < |cs| {
      assert cs[..q + 1] == [cs[0]] + cs[1..][..q];
      assert |Flatten(cs[..q + 1])| == |cs[0]| + |Flatten(cs[1..][..q])|;
    }
  }

  lemma ChunkAtCons(cs: seq<Lines>, line: nat, promotable: set<nat>, taken: bool, b: Lines)
    requires cs != []
    ensures ChunkAt(cs, line, promotable, taken, b) <==>
      (b == TrimBlank(cs[0]) && (line in promotable <==> taken)) || ChunkAt(cs[1..], line + |cs[0]|, promotable, taken, b)
  {
    hide TrimBlank, ChunkIs;
    ChunkIsShifts(cs, line, promotable, taken, b, 0);
    if q: nat :| ChunkIs(cs, line, promotable, taken, b, q) {
      if q > 0 { ChunkIsShifts(cs, line, promotable, taken, b, q - 1); }
    }
    var (rest, next) := (cs[1..], line + |cs[0]|);
    if q: nat :| ChunkIs(rest, next, promotable, taken, b, q) {
      ChunkIsShifts(cs, line, promotable, taken, b, q);
    }
  }

  /** The chunks moved and kept, by the numbers of their first lines. */
  lemma {:induction false} MovedAt(cs: seq<Lines>, line: nat, promotable: set<nat>, b: Lines)
    ensures b in Moved(cs, line, promotable) <==> ChunkAt(cs, line, promotable, true, b)
    ensures b in Keys(Kept(cs, line, promotable)) <==> ChunkAt(cs, line, promotable, false, b)
    decreases |cs|
  {
    hide TrimBlank, ChunkAt, Keys;
    if cs == [] {
      NoChunkAt(line, promotable, b);
    } else {
      MovedAt(cs[1..], line + |cs[0]|, promotable, b);
      ChunkAtCons(cs, line, promotable, true, b);
      ChunkAtCons(cs, line, promotable, false, b);
      var kept, moved := Kept(cs[1..], line + |cs[0]|, promotable), Moved(cs[1..], line + |cs[0]|, promotable);
      KeysCons(cs[0], kept);
      assert [] + kept == kept && [] + moved == moved;
    }
  }

  lemma NoChunkAt(line: nat, promotable: set<nat>, b: Lines)
    ensures !ChunkAt([], line, promotable, true, b) && !ChunkAt([], line, promotable, false, b)
    ensures Keys([]) == {}
  {}

  /** One subsection in front of others. */
  lemma HasItemCons(subs: seq<Sub>, line: nat, promotable: set<nat>, taken: bool, b: Lines)
    requires subs != []
    ensures var ls := subs[0].lines;
      HasItem(subs, line, promotable, taken, b) <==>
        || ChunkAt(Cut(IsBullet, ls), line + 1 + |Preamble(IsBullet, ls)|, promotable, taken, b)
        || HasItem(subs[1..], line + 1 + |ls|, promotable, taken, b)
  {
    hide ItemAt, ChunkIs;
    var ls := subs[0].lines;
    var (cs, first) := (Cut(IsBullet, ls), line + 1 + |Preamble(IsBullet, ls)|);
    if j: nat, q: nat, n: nat :| ItemAt(subs, line, j, q, b, n) && (n in promotable <==> taken) {
      if j > 0 {
        ItemShifts(subs, line, j - 1, q, b, n);
      } else {
        FirstItem(subs, line, q, b, n, promotable, taken);
      }
    }
    if q: nat :| ChunkIs(cs, first, promotable, taken, b, q) {
      ChunkItemAt(subs, line, promotable, taken, b, q);
    }
    var (rest, next) := (subs[1..], line + 1 + |ls|);
    if j: nat, q: nat, n: nat :| ItemAt(rest, next, j, q, b, n) && (n in promotable <==> taken) {
      ItemShifts(subs, line, j, q, b, n);
    }
  }

  lemma ItemShifts(subs: seq<Sub>, line: nat, j: nat, q: nat, b: Lines, n: nat)
    requires subs != []
    ensures ItemAt(subs, line, j + 1, q, b, n) <==> ItemAt(subs[1..], line + 1 + |subs[0].lines|, j, q, b, n)
  {
    hide TrimBlank, Cut, Preamble, Flatten, SubLine;
    if j + 1 < |subs| { LaterLine(subs, line, j); }
  }

  /** An item of the first subsection is a chunk of its body. */
  lemma FirstItem(subs: seq<Sub>, line: nat, q: nat, b: Lines, n: nat, promotable: set<nat>, taken: bool)
    requires subs != [] && ItemAt(subs, line, 0, q, b, n) && (n in promotable <==> taken)
    ensures ChunkIs(Cut(IsBullet, subs[0].lines), line + 1 + |Preamble(IsBullet, subs[0].lines)|, promotable, taken, b, q)
  {
    hide TrimBlank, Cut, Preamble, Flatten;
  }

  lemma ChunkItemAt(subs: seq<Sub>, line: nat, promotable: set<nat>, taken: bool, b: Lines, q: nat)
    requires subs != [] && ChunkIs(Cut(IsBullet, subs[0].lines), line + 1 + |Preamble(IsBullet, subs[0].lines)|, promotable, taken, b, q)
    ensures HasItem(subs, line, promotable, taken, b)
  {
    hide TrimBlank, Cut, Preamble, Flatten;
    var ls := subs[0].lines;
    assert ItemAt(subs, line, 0, q, b, line + 1 + ItemStart(ls, q));
  }

  lemma LaterLine(subs: seq<Sub>, line: nat, j: nat)
    requires j + 1 < |subs|
    ensures SubLine(subs, line, j + 1) == SubLine(subs[1..], line + 1 + |subs[0].lines|, j)
  {}

  lemma AddToBullets(u: Section, title: string, items: seq<Lines>)
    requires AreItems(items)
    ensures SubsBullets(AddToSection(u, title, items).subs) == SubsBullets(u.subs) + ToSet(items)
  {
    hide Bullets, SubsBullets, AreItems, AddItems;
    var k := FindLast(u.subs, title);
    if items == [] {
      assert ToSet(items) == {};
    } else if k < |u.subs| {
      AddItemsIs(u.subs[k].lines, items);
      SubsBulletsAt(u.subs, k);
      SubsBulletsUpdate(u.subs, k, Sub(title, AddItems(u.subs[k].lines, items)));
    } else {
      AddItemsIs([], items);
      NoBullets();
      SubsBulletsAppend(u.subs, [Sub(title, AddItems([], items))]);
      SubsBulletsOne(Sub(title, AddItems([], items)));
    }
  }

  /** What stays of a subsection are its items at lines that are not promotable. */
  lemma KeptBullets(ls: Lines, first: nat, promotable: set<nat>, b: Lines)
    ensures b in ToSet(Bullets(Preamble(IsBullet, ls) + Flatten(Kept(Cut(IsBullet, ls), first, promotable)))) <==> ChunkAt(Cut(IsBullet, ls), first, promotable, false, b)
  {
    hide Lacks, AreChunks, IsBullet, TrimBy, Keys, ChunkAt, Kept, Preamble, Cut, AreItems;
    CutParts(IsBullet, ls);
    MovedAndKept(Cut(IsBullet, ls), first, promotable);
    BulletsFromParts(Preamble(IsBullet, ls), Kept(Cut(IsBullet, ls), first, promotable));
    KeysAre(Kept(Cut(IsBullet, ls), first, promotable), b);
    MovedAt(Cut(IsBullet, ls), first, promotable, b);
  }

  lemma {:induction false} KeysAre(cs: seq<Lines>, b: Lines)
    ensures b in Keys(cs) <==> b in ToSet(TrimEach(IsBlank, cs))
  {
    hide IsBlank, TrimBy;
    if cs == [] {
      assert Keys(cs) == {};
    } else {
      KeysAre(cs[1..], b);
      KeysCons(cs[0], cs[1..]);
      assert cs == [cs[0]] + cs[1..];
      TrimEachAppend(IsBlank, [cs[0]], cs[1..]);
      assert TrimEach(IsBlank, [cs[0]]) == [TrimBlank(cs[0])];
    }
  }

  /** Promotion out of one section takes the items at promotable lines, and leaves the others. */
  lemma {:induction false} SubsPromotedExactly(u: Section, subs: seq<Sub>, line: nat, promotable: set<nat>, b: Lines)
    ensures var (u2, rest) := PromoteSubs(u, subs, line, promotable);
      && (b in SubsBullets(u2.subs) <==> b in SubsBullets(u.subs) || HasItem(subs, line, promotable, true, b))
      && (b in SubsBullets(rest) <==> HasItem(subs, line, promotable, false, b))
    decreases |subs|
  {
    hide Bullets, AddToSection, Kept, Moved, AreItems, Preamble, Cut, HasItem, ChunkAt, SubsBullets;
    if subs == [] {
      NoItemAt(line, promotable, b);
    } else {
      var ls := subs[0].lines;
      var first := line + 1 + |Preamble(IsBullet, ls)|;
      var cs := Cut(IsBullet, ls);
      var moved := Moved(cs, first, promotable);
      CutParts(IsBullet, ls);
      MovedAndKept(cs, first, promotable);
      AddToBullets(u, subs[0].title, moved);
      var u1 := AddToSection(u, subs[0].title, moved);
      var s := Sub(subs[0].title, Preamble(IsBullet, ls) + Flatten(Kept(cs, first, promotable)));
      SubsPromotedExactly(u1, subs[1..], line + 1 + |ls|, promotable, b);
      var (u2, rest) := PromoteSubs(u1, subs[1..], line + 1 + |ls|, promotable);
      MovedAt(cs, first, promotable, b);
      KeptBullets(ls, first, promotable, b);
      SubsBulletsCons(s, rest);
      HasItemCons(subs, line, promotable, true, b);
      HasItemCons(subs, line, promotable, false, b);
    }
  }

  lemma NoItemAt(line: nat, promotable: set<nat>, b: Lines)
    ensures !HasItem([], line, promotable, true, b) && !HasItem([], line, promotable, false, b)
    ensures SubsBullets([]) == {}
  {}

  // --------------------------------------------------------- the whole document

  /** The line of the i-th section's heading. */
  function HeadingLine(heights: seq<nat>, line: nat, i: nat): nat
    requires i < |heights|
  {
    if i == 0 then line else HeadingLine(heights[1..], line + heights[0], i - 1)
  }

  /** The i-th section is a released one with the item at a promotable line, or at another. */
  ghost predicate ReleasedAt(ss: seq<Section>, heights: seq<nat>, line: nat, promotable: set<nat>, taken: bool, i: nat, b: Lines)
    requires |heights| == |ss|
  {
    i < |ss| && IsReleased(ss[i]) && HasItem(ss[i].subs, HeadingLine(heights, line, i) + 1 + |ss[i].leading|, promotable, taken, b)
  }

  ghost predicate TakenSomewhere(ss: seq<Section>, heights: seq<nat>, line: nat, promotable: set<nat>, b: Lines)
    requires |heights| == |ss|
  {
    exists i: nat :: ReleasedAt(ss, heights, line, promotable, true, i, b)
  }

  lemma ReleasedAtShifts(ss: seq<Section>, heights: seq<nat>, line: nat, promotable: set<nat>, taken: bool, i: nat, b: Lines)
    requires |heights| == |ss| && ss != []
    ensures ReleasedAt(ss, heights, line, promotable, taken, i + 1, b) <==> ReleasedAt(ss[1..], heights[1..], line + heights[0], promotable, taken, i, b)
  {
    hide HasItem, IsUnreleased;
  }

  lemma TakenCons(ss: seq<Section>, heights: seq<nat>, line: nat, promotable: set<nat>, b: Lines)
    requires |heights| == |ss| && ss != []
    ensures TakenSomewhere(ss, heights, line, promotable, b) <==>
      || ReleasedAt(ss, heights, line, promotable, true, 0, b)
      || TakenSomewhere(ss[1..], heights[1..], line + heights[0], promotable, b)
  {
    hide ReleasedAt;
    if i: nat :| ReleasedAt(ss, heights, line, promotable, true, i, b) {
      if i > 0 { ReleasedAtShifts(ss, heights, line, promotable, true, i - 1, b); }
    }
    var (rest, more, next) := (ss[1..], heights[1..], line + heights[0]);
    if i: nat :| ReleasedAt(rest, more, next, promotable, true, i, b) {
      ReleasedAtShifts(ss, heights, line, promotable, true, i, b);
    }
  }

  /** Each section afterwards: a released one has its items at lines that are not promotable, any
      other is as it was. */
  ghost predicate Left(ss: seq<Section>, heights: seq<nat>, line: nat, promotable: set<nat>, rest: seq<Section>, b: Lines)
    requires |heights| == |ss|
  {
    |rest| == |ss| && forall i: nat :: i < |ss| ==> LeftAt(ss, heights, line, promotable, rest, i, b)
  }

  ghost predicate LeftAt(ss: seq<Section>, heights: seq<nat>, line: nat, promotable: set<nat>, rest: seq<Section>, i: nat, b: Lines)
    requires |heights| == |ss| == |rest| && i < |ss|
  {
    if IsReleased(ss[i]) then b in SubsBullets(rest[i].subs) <==> ReleasedAt(ss, heights, line, promotable, false, i, b)
    else rest[i] == ss[i]
  }

  lemma {:induction false} SectionsPromotedExactly(u: Section, ss: seq<Section>, heights: seq<nat>, line: nat, promotable: set<nat>, b: Lines)
    requires |heights| == |ss|
    ensures var (u2, rest) := PromoteSections(u, ss, heights, line, promotable);
      && (b in SubsBullets(u2.subs) <==> b in SubsBullets(u.subs) || TakenSomewhere(ss, heights, line, promotable, b))
      && Left(ss, heights, line, promotable, rest, b)
    decreases |ss|
  {
    hide SubsBullets, IsUnreleased, PromoteSubs, TakenSomewhere, Left, HasItem;
    if ss == [] {
      NothingTaken(heights, line, promotable, b);
    } else {
      var (u1, subs) := if IsUnreleased(ss[0]) then (u, ss[0].subs) else PromoteSubs(u, ss[0].subs, line + 1 + |ss[0].leading|, promotable);
      if !IsUnreleased(ss[0]) {
        SubsPromotedExactly(u, ss[0].subs, line + 1 + |ss[0].leading|, promotable, b);
      }
      SectionsPromotedExactly(u1, ss[1..], heights[1..], line + heights[0], promotable, b);
      var (u2, rest) := PromoteSections(u1, ss[1..], heights[1..], line + heights[0], promotable);
      TakenCons(ss, heights, line, promotable, b);
      LeftCons(ss, heights, line, promotable, ss[0].(subs := subs), rest, b);
    }
  }

  lemma NothingTaken(heights: seq<nat>, line: nat, promotable: set<nat>, b: Lines)
    requires heights == []
    ensures !TakenSomewhere([], heights, line, promotable, b) && Left([], heights, line, promotable, [], b)
  {}

  lemma LeftCons(ss: seq<Section>, heights: seq<nat>, line: nat, promotable: set<nat>, s: Section, rest: seq<Section>, b: Lines)
    requires |heights| == |ss| && ss != [] && Left(ss[1..], heights[1..], line + heights[0], promotable, rest, b)
    requires if IsReleased(ss[0]) then b in SubsBullets(s.subs) <==> ReleasedAt(ss, heights, line, promotable, false, 0, b) else s == ss[0]
    ensures Left(ss, heights, line, promotable, [s] + rest, b)
  {
    hide SubsBullets, IsUnreleased, ReleasedAt;
    var all := [s] + rest;
    forall i: nat | i < |ss| ensures LeftAt(ss, heights, line, promotable, all, i, b) {
      if i > 0 {
        assert LeftAt(ss[1..], heights[1..], line + heights[0], promotable, rest, i - 1, b);
        assert all[i] == rest[i - 1] && ss[1..][i - 1] == ss[i];
        ReleasedAtShifts(ss, heights, line, promotable, false, i - 1, b);
      }
    }
  }

  /** After promotion: the sections that are not the first Unreleased one, in their places. */
  ghost predicate OthersLeft(ss: seq<Section>, heights: seq<nat>, line: nat, promotable: set<nat>, p: seq<Section>, b: Lines)
    requires |heights| == |ss|
  {
    |p| == |ss| && forall i: nat :: i < |ss| && i != FirstUnreleased(ss) ==> LeftAt(ss, heights, line, promotable, p, i, b)
  }

  /** Promotion, exactly. The first Unreleased section gains the released items whose first line is
      promotable and nothing else; where there is none, one with just those is put in front. Every
      released section keeps the items whose first line is not promotable and no others. */
  lemma PromotionIsExact(ss: seq<Section>, heights: seq<nat>, line: nat, promotable: set<nat>, b: Lines)
    requires |heights| == |ss|
    ensures var (k, p) := (FirstUnreleased(ss), Promote(ss, heights, line, promotable));
      if k < |ss| then
        && OthersLeft(ss, heights, line, promotable, p, b)
        && (b in SubsBullets(p[k].subs) <==> b in SubsBullets(ss[k].subs) || TakenSomewhere(ss, heights, line, promotable, b))
      else if |p| == |ss| then
        !TakenSomewhere(ss, heights, line, promotable, b) && OthersLeft(ss, heights, line, promotable, p, b)
      else
        && |p| == |ss| + 1 && OthersLeft(ss, heights, line, promotable, p[1..], b)
        && (b in SubsBullets(p[0].subs) <==> TakenSomewhere(ss, heights, line, promotable, b))
  {
    hide SubsBullets, IsUnreleased, PromoteSections, TakenSomewhere, ReleasedAt;
    var k := FirstUnreleased(ss);
    var start := if k < |ss| then ss[k] else NO_UNRELEASED;
    SectionsPromotedExactly(start, ss, heights, line, promotable, b);
    NothingInside();
    var (u, rest) := PromoteSections(start, ss, heights, line, promotable);
    var p := Promote(ss, heights, line, promotable);
    assert Left(ss, heights, line, promotable, rest, b);
    hide Left, OthersLeft;
    LeftLength(ss, heights, line, promotable, rest, b);
    if k < |ss| {
      OthersFrom(ss, heights, line, promotable, rest, p, b);
    } else {
      assert ([u] + rest)[1..] == rest;
      OthersFrom(ss, heights, line, promotable, rest, rest, b);
    }
  }

  lemma LeftLength(ss: seq<Section>, heights: seq<nat>, line: nat, promotable: set<nat>, rest: seq<Section>, b: Lines)
    requires |heights| == |ss| && Left(ss, heights, line, promotable, rest, b)
    ensures |rest| == |ss|
  {}

  lemma OthersFrom(ss: seq<Section>, heights: seq<nat>, line: nat, promotable: set<nat>, rest: seq<Section>, p: seq<Section>, b: Lines)
    requires |heights| == |ss| == |p| == |rest| && Left(ss, heights, line, promotable, rest, b)
    requires forall i: nat :: i < |ss| && i != FirstUnreleased(ss) ==> p[i] == rest[i]
    ensures OthersLeft(ss, heights, line, promotable, p, b)
  {
    hide SubsBullets, IsUnreleased, ReleasedAt, FirstUnreleased;
    forall i: nat | i < |ss| && i != FirstUnreleased(ss) ensures LeftAt(ss, heights, line, promotable, p, i, b) {
      assert LeftAt(ss, heights, line, promotable, rest, i, b);
    }
  }

  lemma NothingInside()
    ensures SubsBullets(NO_UNRELEASED.subs) == {}
  {}

  // ------------------------------------------------------------- line numbers

  lemma {:induction false} HeadingLineIs(ss: seq<Section>, line: nat, i: nat, j: nat, o: nat)
    requires i < |ss| && j < |ss[i].subs| && |Heights(ss)| == |ss|
    ensures NumberOf(ss, line, i, j, o) == SubLine(ss[i].subs, HeadingLine(Heights(ss), line, i) + 1 + |ss[i].leading|, j) + o
    decreases i
  {
    hide SubLine, Height;
    if i > 0 {
      HeightsLength(ss[1..]);
      assert Heights(ss)[1..] == Heights(ss[1..]) && Heights(ss)[0] == Height(ss[0]);
      assert ss[1..][i - 1] == ss[i];
      HeadingLineIs(ss[1..], line + Height(ss[0]), i - 1, j, o);
    }
  }

  /** The numbers promotion goes by are those of the items' first lines in the text: of the document
      that a text parses to, item `b` at number `n` has its first line there. */
  lemma ItemNumbersAreReal(content: string, i: nat, j: nat, q: nat, b: Lines, n: nat)
    requires i < |Parse(content).sections|
    requires |Heights(Parse(content).sections)| == |Parse(content).sections|
    requires ItemAt(Parse(content).sections[i].subs,
      HeadingLine(Heights(Parse(content).sections), |Parse(content).prefix| + 1, i) + 1 + |Parse(content).sections[i].leading|, j, q, b, n)
    ensures At(SplitContentLines(content), n - 1, Cut(IsBullet, Parse(content).sections[i].subs[j].lines)[q][0])
      && b == TrimBlank(Cut(IsBullet, Parse(content).sections[i].subs[j].lines)[q])
  {
    hide Parse, SplitContentLines, At, TrimBlank, SubLine, HeadingLine, NumberOf, IsBullet;
    var ss := Parse(content).sections;
    var ls := ss[i].subs[j].lines;
    var o := ItemStart(ls, q);
    ItemFirstLine(ls, q);
    LineNumbersAreReal(content, i, j, o);
    HeadingLineIs(ss, |Parse(content).prefix| + 1, i, j, o);
  }

  lemma ItemFirstLine(ls: Lines, q: nat)
    requires q < |Cut(IsBullet, ls)|
    ensures ItemStart(ls, q) < |ls| && Cut(IsBullet, ls)[q] != [] && ls[ItemStart(ls, q)] == Cut(IsBullet, ls)[q][0]
  {
    hide IsBullet, Preamble, Cut, Flatten;
    var cs := Cut(IsBullet, ls);
    CutParts(IsBullet, ls);
    assert IsChunk(IsBullet, cs[q]);
    assert cs == cs[..q] + ([cs[q]] + cs[q + 1..]);
    FlattenAppend(cs[..q], [cs[q]] + cs[q + 1..]);
    FlattenAppend([cs[q]], cs[q + 1..]);
    FlattenOne(cs[q]);
    assert ls == Preamble(IsBullet, ls) + Flatten(cs[..q]) + (cs[q] + Flatten(cs[q + 1..]));
  }

  lemma FlattenOne<T>(c: seq<T>)
    ensures Flatten([c]) == c
  {
    assert Flatten([c]) == c + Flatten([c][1..]) && Flatten([c][1..]) == [];
  }
}
