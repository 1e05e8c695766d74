/** When one pass of the changelog fixer is enough, read off what it was given
    (scripts/fix-changelogs.ts:218-232, 310-329, 359-419, 531-580). */
module ChangelogInput {
  import opened Lists
  import opened Items
  import opened StableSort
  import opened ChangelogText
  import opened ChangelogDocument
  import opened ChangelogFix
  import opened ChangelogItems
  import opened ChangelogStability
  import opened ChangelogExact
  import opened ChangelogGaps

  // --------------------------------------------------- the items of merged bodies

  /** The visible bodies under a title, one after the other with an empty line between. */
  function JoinedBody(subs: seq<Sub>, title: string): Lines {
    if subs == [] then []
    else
      var n := |subs| - 1;
      var before := JoinedBody(subs[..n], title);
      if subs[n].title != title || !Visible(subs[n].lines) then before
      else if before == [] then TrimBlank(subs[n].lines)
      else before + [""] + TrimBlank(subs[n].lines)
  }

  /** An item of the section once the bodies under each title are one. */
  ghost predicate MergedItem(x: Lines, subs: seq<Sub>) {
    exists i :: 0 <= i < |subs| && x in Bullets(JoinedBody(subs, subs[i].title))
  }

  /** The items `bs`, with the body `z` after them: text at its top falls under the last item. */
  function Extended(bs: seq<Lines>, z: Lines): seq<Lines>
    requires z != []
  {
    if bs == [] || IsBullet(z[0]) then bs + Bullets(z)
    else bs[..|bs| - 1] + [TrimBlank(bs[|bs| - 1] + ([""] + Preamble(IsBullet, z)))] + Bullets(z)
  }

  lemma ExtendedAlike(bs: seq<Lines>, ls: Lines)
    requires Visible(ls)
    ensures CompactLines(ls) != [] && Extended(bs, CompactLines(ls)) == Extended(bs, TrimBlank(ls))
  {
    hide IsBullet, IsBlank, TrimBy, Bullets, CompactLines, GapFree;
    CompactEdges(ls);
    CompactKeepsBullets(ls);
    BulletsOfTrimmed(ls);
  }

  lemma JoinIs(x: Lines, sep: Lines, z: Lines)
    requires x != [] && TrimBlank(x) == x && z != [] && !IsBlank(z[0])
    requires sep == [""] || (sep == [] && IsBullet(z[0]))
    ensures Bullets(x + sep + z) == Extended(Bullets(x), z)
  {
    hide IsBullet, IsBlank, TrimBy, Bullets;
    if Bullets(x) == [] || IsBullet(z[0]) {
      AppendItems(x, sep, z);
    } else {
      TrimIsTrimmed(IsBlank, x);
      ExtendedJoin(x, sep, z);
    }
  }

  lemma ExtendedJoin(x: Lines, sep: Lines, z: Lines)
    requires x != [] && !IsBlank(x[|x| - 1]) && Bullets(x) != [] && sep == [""] && z != [] && !IsBullet(z[0])
    ensures var bs := Bullets(x);
            Bullets(x + sep + z) == bs[..|bs| - 1] + [TrimBlank(bs[|bs| - 1] + (sep + Preamble(IsBullet, z)))] + Bullets(z)
  {
    hide IsBullet, IsBlank, TrimBy, AreChunks, Lacks, Every, Cut, Preamble, Flatten, ExtendLast, TrimEach;
    var px, cx, pz, cz := Preamble(IsBullet, x), Cut(IsBullet, x), Preamble(IsBullet, z), Cut(IsBullet, z);
    CutParts(IsBullet, x);
    CutParts(IsBullet, z);
    var ce := ExtendLast(cx, sep + pz);
    EmptyLacks();
    LacksAppend(IsBullet, sep, pz);
    ExtendLastChunks(IsBullet, cx, sep + pz);
    ChunksAppend(IsBullet, ce, cz);
    FlattenAppend(ce, cz);
    Regroup(px, Flatten(cx), sep + pz, Flatten(cz));
    assert x + sep + z == (px + Flatten(cx)) + ((sep + pz) + Flatten(cz));
    CutIs(IsBullet, px, ce + cz);
    TrimEachAppend(IsBlank, ce, cz);
    LastChunk(x);
    TrimExtended(cx, sep + pz);
  }

  lemma EmptyLacks()
    ensures Lacks(IsBullet, [""])
  {
    EmptyIsBlank();
  }

  /** A body that ends in a visible line ends with its last item. */
  lemma LastChunk(x: Lines)
    requires x != [] && !IsBlank(x[|x| - 1]) && Bullets(x) != []
    ensures var cs := Cut(IsBullet, x); cs != [] && TrimBlank(cs[|cs| - 1]) == cs[|cs| - 1]
  {
    hide IsBullet, IsBlank, TrimBy, Cut, Preamble, Flatten;
    var cs, pre := Cut(IsBullet, x), Preamble(IsBullet, x);
    CutParts(IsBullet, x);
    var init, last := cs[..|cs| - 1], cs[|cs| - 1];
    assert cs == init + [last] && IsChunk(IsBullet, last);
    FlatLast(init, last);
    assert x[|x| - 1] == last[|last| - 1];
    BulletsApart();
    LastIsTrimmed(IsBullet, IsBlank, last);
  }

  lemma TrimExtended(cs: seq<Lines>, post: Lines)
    requires cs != [] && TrimBlank(cs[|cs| - 1]) == cs[|cs| - 1]
    ensures var bs := TrimEach(IsBlank, cs);
            TrimEach(IsBlank, ExtendLast(cs, post)) == bs[..|bs| - 1] + [TrimBlank(bs[|bs| - 1] + post)]
  {
    hide IsBlank, TrimBy;
    var init, last := cs[..|cs| - 1], cs[|cs| - 1];
    assert cs == init + [last];
    TrimEachAppend(IsBlank, init, [last]);
    TrimEachAppend(IsBlank, init, [last + post]);
    assert TrimEach(IsBlank, [last]) == [TrimBlank(last)] && TrimEach(IsBlank, [last + post]) == [TrimBlank(last + post)];
  }

  lemma AppendIs(target: Lines, ls: Lines)
    requires target != [] && TrimBlank(target) == target && Visible(ls)
    ensures Bullets(AppendLines(target, CompactLines(ls))) == Extended(Bullets(target), TrimBlank(ls))
  {
    hide IsBullet, IsBlank, TrimBy, Bullets, CompactLines, Extended;
    var more := CompactLines(ls);
    CompactEdges(ls);
    TrimIsTrimmed(IsBlank, more);
    var sep := if IsBullet(target[|target| - 1]) && IsBullet(more[0]) then [] else [""];
    JoinIs(target, sep, more);
    ExtendedAlike(Bullets(target), ls);
  }

  lemma {:induction false} JoinedIsTrimmed(subs: seq<Sub>, title: string)
    ensures TrimBlank(JoinedBody(subs, title)) == JoinedBody(subs, title)
  {
    hide TrimBy, IsBlank;
    if subs == [] {
      TrimIsTrimmed(IsBlank, []);
      TrimFixed(IsBlank, []);
    } else {
      var n := |subs| - 1;
      JoinedIsTrimmed(subs[..n], title);
      TrimIsTrimmed(IsBlank, subs[n].lines);
      TrimFixed(IsBlank, TrimBlank(subs[n].lines));
      var before := JoinedBody(subs[..n], title);
      TrimIsTrimmed(IsBlank, before);
      TrimFixed(IsBlank, JoinedBody(subs, title));
    }
  }

  // --------------------------------------------------------- while merging

  lemma {:induction false} MergeSnoc(acc: seq<Sub>, subs: seq<Sub>, s: Sub)
    ensures MergeSubs(acc, subs + [s]) == MergeSub(MergeSubs(acc, subs), s)
    decreases |subs|
  {
    hide MergeSub;
    if subs == [] {
      assert [] + [s] == [s] && [s][1..] == [];
    } else {
      assert (subs + [s])[1..] == subs[1..] + [s];
      MergeSnoc(MergeSub(acc, subs[0]), subs[1..], s);
    }
  }

  /** Under `title` stands a body with the items of the joined one, or nothing. */
  ghost predicate LikeJoined(acc: seq<Sub>, joined: Lines, title: string) {
    var k := Find(acc, title);
    if k < |acc| then joined != [] && Bullets(acc[k].lines) == Bullets(joined) else joined == []
  }

  lemma LikeJoinedStep(acc: seq<Sub>, s: Sub, joined: Lines, title: string)
    requires Tight(acc) && UniqueTitles(acc) && LikeJoined(acc, joined, title) && TrimBlank(joined) == joined
    ensures LikeJoined(MergeSub(acc, s),
              if s.title != title || !Visible(s.lines) then joined else if joined == [] then TrimBlank(s.lines) else joined + [""] + TrimBlank(s.lines), title)
  {
    hide TrimBlank, CompactLines, AppendLines, Bullets, Find, Tight, UniqueTitles, MergeSub;
    if !Visible(s.lines) {
      BlankMerges(acc, s);
    } else if s.title != title {
      OthersStay(acc, s, title);
    } else {
      var k := Find(acc, title);
      if k < |acc| {
        TightAt(acc, k);
        MergeIsReplace(acc, s);
        AppendIs(acc[k].lines, s.lines);
        TrimmedStarts(s.lines);
        JoinIs(joined, [""], TrimBlank(s.lines));
        FoundReplaced(acc, k, Sub(title, AppendLines(acc[k].lines, CompactLines(s.lines))));
      } else {
        MergeIsNew(acc, s);
        CompactKeepsBullets(s.lines);
        BulletsOfTrimmed(s.lines);
        FoundAppended(acc, Sub(title, CompactLines(s.lines)), title);
      }
    }
  }

  lemma TrimmedStarts(ls: Lines)
    requires Visible(ls)
    ensures TrimBlank(ls) != [] && !IsBlank(TrimBlank(ls)[0])
  {
    hide IsBlank;
    TrimIsTrimmed(IsBlank, ls);
  }

  lemma TightAt(acc: seq<Sub>, k: nat)
    requires Tight(acc) && k < |acc|
    ensures acc[k].lines != [] && TrimBlank(acc[k].lines) == acc[k].lines
  {}

  lemma MergeIsNew(acc: seq<Sub>, s: Sub)
    requires Visible(s.lines) && Find(acc, s.title) == |acc|
    ensures MergeSub(acc, s) == acc + [Sub(s.title, CompactLines(s.lines))]
  {
    hide TrimBlank, CompactLines, AppendLines, Find;
    CompactKeepsStart(s.lines);
  }

  lemma {:induction false} FoundReplaced(acc: seq<Sub>, k: nat, s: Sub)
    requires k < |acc| && Find(acc, s.title) == k
    ensures Find(acc[k := s], s.title) == k
  {
    var b := acc[k := s];
    if k > 0 {
      assert b[0] == acc[0] && b[1..] == acc[1..][k - 1 := s];
      FoundReplaced(acc[1..], k - 1, s);
    }
  }

  lemma FoundAppended(acc: seq<Sub>, s: Sub, title: string)
    ensures Find(acc + [s], title) == if Find(acc, title) < |acc| then Find(acc, title) else if s.title == title then |acc| else |acc| + 1
  {
    var j, k := Find(acc + [s], title), Find(acc, title);
    forall i | 0 <= i < |acc| ensures (acc + [s])[i] == acc[i] {}
    assert (acc + [s])[|acc|] == s;
  }

  lemma OthersStay(acc: seq<Sub>, s: Sub, title: string)
    requires Visible(s.lines) && s.title != title
    ensures var k, t := Find(acc, title), MergeSub(acc, s);
            if k < |acc| then Find(t, title) == k < |t| && t[k] == acc[k] else Find(t, title) == |t|
  {
    hide TrimBlank, CompactLines, AppendLines;
    var k := Find(acc, s.title);
    if k < |acc| {
      MergeIsReplace(acc, s);
      OthersReplaced(acc, k, Sub(s.title, AppendLines(acc[k].lines, CompactLines(s.lines))), title);
    } else {
      MergeIsNew(acc, s);
      FoundAppended(acc, Sub(s.title, CompactLines(s.lines)), title);
    }
  }

  lemma {:induction false} OthersReplaced(acc: seq<Sub>, k: nat, s: Sub, title: string)
    requires k < |acc| && acc[k].title == s.title != title
    ensures Find(acc[k := s], title) == Find(acc, title)
  {
    var b := acc[k := s];
    if k == 0 {
      assert b[1..] == acc[1..];
    } else {
      assert b[1..] == acc[1..][k - 1 := s];
      OthersReplaced(acc[1..], k - 1, s, title);
    }
  }

  lemma {:induction false} MergedLikeJoined(subs: seq<Sub>, title: string)
    ensures LikeJoined(MergeSubs([], subs), JoinedBody(subs, title), title)
    ensures Tight(MergeSubs([], subs)) && UniqueTitles(MergeSubs([], subs))
  {
    hide LikeJoined, Tight, UniqueTitles, TrimBlank, MergeSub, Visible;
    if subs == [] {
      NothingMergedYet(title);
    } else {
      var n := |subs| - 1;
      assert subs == subs[..n] + [subs[n]];
      MergedLikeJoined(subs[..n], title);
      MergeSnoc([], subs[..n], subs[n]);
      var acc := MergeSubs([], subs[..n]);
      MergeSubTight(acc, subs[n]);
      MergeKeepsUnique(acc, subs[n]);
      JoinedIsTrimmed(subs[..n], title);
      LikeJoinedStep(acc, subs[n], JoinedBody(subs[..n], title), title);
    }
  }

  lemma NothingMergedYet(title: string)
    ensures LikeJoined([], [], title) && Tight([]) && UniqueTitles([])
  {}

  /** The items of a normalized section are those of its joined bodies. */
  lemma NormalizedItemsAre(s: Section, x: Lines)
    ensures x in SubsBullets(NormalizeSection(s).subs) <==> MergedItem(x, s.subs)
  {
    hide MergeSubs, Bullets, IsUnreleased, TrimBlank, LikeJoined, JoinedBody;
    var acc := MergeSubs([], s.subs);
    SameMembers(acc, SortBy(TitleOrder, acc));
    SubsBulletsMember(NormalizeSection(s).subs, x);
    assert x in SubsBullets(NormalizeSection(s).subs) <==> exists t :: t in acc && x in Bullets(t.lines);
    MergedItemsAre(s.subs, x);
  }

  lemma MergedItemsAre(subs: seq<Sub>, x: Lines)
    ensures (exists t :: t in MergeSubs([], subs) && x in Bullets(t.lines)) <==> MergedItem(x, subs)
  {
    hide MergeSubs, Bullets, TrimBlank, JoinedBody;
    var acc := MergeSubs([], subs);
    if exists t :: t in acc && x in Bullets(t.lines) {
      var t :| t in acc && x in Bullets(t.lines);
      MergedLikeJoined(subs, t.title);
      FoundUnique(acc, t);
      JoinedHasTitle(subs, t.title);
    }
    if MergedItem(x, subs) {
      var i :| 0 <= i < |subs| && x in Bullets(JoinedBody(subs, subs[i].title));
      MergedLikeJoined(subs, subs[i].title);
      NoBullets();
      var k := Find(acc, subs[i].title);
      assert acc[k] in acc;
    }
  }

  lemma FoundUnique(acc: seq<Sub>, t: Sub)
    requires UniqueTitles(acc) && t in acc
    ensures Find(acc, t.title) < |acc| && acc[Find(acc, t.title)] == t
  {
    var i :| 0 <= i < |acc| && acc[i] == t;
  }

  lemma {:induction false} JoinedHasTitle(subs: seq<Sub>, title: string)
    requires JoinedBody(subs, title) != []
    ensures exists i :: 0 <= i < |subs| && subs[i].title == title
  {
    hide TrimBlank;
    var n := |subs| - 1;
    if subs[n].title != title {
      JoinedHasTitle(subs[..n], title);
      var i :| 0 <= i < n && subs[..n][i].title == title;
      assert subs[i].title == title;
    }
  }

  // -------------------------------------------------------------- the theorem

  /** In every section the bodies merge tight. */
  predicate AllMergeTight(ss: seq<Section>) {
    forall i :: 0 <= i < |ss| ==> MergesTight(map[], ss[i].subs)
  }

  /** No item of the first Unreleased section, its bodies joined, is a historical item or one of
      a released section, its bodies joined. */
  ghost predicate NothingNewToDrop(ss: seq<Section>, historical: set<Lines>) {
    var k := FirstUnreleased(ss);
    k < |ss| ==> forall x :: MergedItem(x, ss[k].subs) ==> x !in historical && !ReleasedMerged(x, ss)
  }

  ghost predicate ReleasedMerged(x: Lines, ss: seq<Section>) {
    exists j :: 0 <= j < |ss| && IsReleased(ss[j]) && MergedItem(x, ss[j].subs)
  }

  lemma {:induction false} NormalizedAt(ss: seq<Section>)
    ensures |NormalizeSections(ss)| == |ss| && forall i :: 0 <= i < |ss| ==> NormalizeSections(ss)[i] == NormalizeSection(ss[i])
  {
    hide NormalizeSection;
    if ss != [] {
      NormalizedAt(ss[1..]);
      assert forall i :: 1 <= i < |ss| ==> ss[i] == ss[1..][i - 1] && NormalizeSections(ss)[i] == NormalizeSections(ss[1..])[i - 1];
    }
  }

  lemma AllCompactMembers(a: seq<Section>, b: seq<Section>)
    requires forall s :: s in a <==> s in b
    ensures AllCompact(a) <==> AllCompact(b)
  {
    hide AllSettled;
    if AllCompact(a) {
      forall i | 0 <= i < |b| ensures AllSettled(b[i].subs) {
        assert b[i] in a;
      }
    }
    if AllCompact(b) {
      forall i | 0 <= i < |a| ensures AllSettled(a[i].subs) {
        assert a[i] in b;
      }
    }
  }

  /** A pass leaves every body compact exactly when the bodies it merges merge tight. */
  lemma PassCompactsExactly(ss: seq<Section>, historical: set<Lines>)
    ensures AllCompact(Pass(ss, historical)) <==> AllMergeTight(DropDuplicates(ss, historical))
  {
    hide AllSettled, MergesTight, NormalizeSection, NormalizeSections, SortSections, DropDuplicates;
    var d := DropDuplicates(ss, historical);
    var n := NormalizeSections(d);
    SortMembers(n);
    AllCompactMembers(n, SortSections(n));
    NormalizedAt(d);
    forall i | 0 <= i < |d| ensures AllSettled(n[i].subs) <==> MergesTight(map[], d[i].subs) {
      NormalizedSettles(d[i]);
    }
  }

  lemma ReleasedMergedExactly(d: seq<Section>, x: Lines)
    ensures x in ReleasedBullets(SortSections(NormalizeSections(d))) <==> ReleasedMerged(x, d)
  {
    hide SubsBullets, ReleasedBullets, NormalizeSection, NormalizeSections, SortSections, MergedItem, IsUnreleased;
    var n := NormalizeSections(d);
    NormalizedAt(d);
    SortMembers(n);
    InReleased(SortSections(n), x);
    if x in ReleasedBullets(SortSections(n)) {
      var s :| s in SortSections(n) && IsReleased(s) && x in SubsBullets(s.subs);
      var j :| 0 <= j < |n| && n[j] == s;
      NormalizedItemsAre(d[j], x);
      NormalizedKind(d[j]);
    }
    if ReleasedMerged(x, d) {
      var j :| 0 <= j < |d| && IsReleased(d[j]) && MergedItem(x, d[j].subs);
      NormalizedItemsAre(d[j], x);
      NormalizedKind(d[j]);
      assert n[j] in n;
    }
  }

  lemma NormalizedKind(s: Section)
    ensures IsReleased(NormalizeSection(s)) <==> IsReleased(s)
  {
    hide MergeSubs, TrimBlank;
    SameTitleSameKind(s, NormalizeSection(s));
  }

  /** A pass leaves nothing to drop exactly when joining the bodies makes nothing new to drop. */
  lemma PassDropsExactly(ss: seq<Section>, historical: set<Lines>)
    ensures NothingToDrop(Pass(ss, historical), historical) <==> NothingNewToDrop(DropDuplicates(ss, historical), historical)
  {
    hide SubsBullets, ReleasedBullets, NormalizeSection, NormalizeSections, SortSections, DropDuplicates, MergedItem, ReleasedMerged, IsUnreleased;
    var d := DropDuplicates(ss, historical);
    var n := NormalizeSections(d);
    NormalizedAt(d);
    NormalizeAllNoRepeats(d);
    SameFirst(d, n);
    FirstInFront(n);
    var k := FirstUnreleased(d);
    if k < |d| {
      forall x ensures x in SubsBullets(n[k].subs) <==> MergedItem(x, d[k].subs) {
        NormalizedItemsAre(d[k], x);
      }
      forall x ensures x in ReleasedBullets(SortSections(n)) <==> ReleasedMerged(x, d) {
        ReleasedMergedExactly(d, x);
      }
    }
  }

  /** A second pass changes nothing if and only if, in the document as read and with the released
      duplicates dropped, every repeated heading merges tight and joining bodies under their
      headings makes nothing new to drop. */
  lemma SecondPassOnInput(content: string, historical: set<Lines>)
    requires NumericTitles(Parse(content).sections)
    ensures FixContent(FixContent(content, {}, historical), {}, historical) == FixContent(content, {}, historical) <==>
            var d := DropDuplicates(Parse(content).sections, historical);
            AllMergeTight(d) && NothingNewToDrop(d, historical)
  {
    hide Parse, Fix, FixContent, Pass, DropDuplicates, AllMergeTight, NothingNewToDrop, NothingToDrop, AllCompact, NumericTitles;
    SecondPassExactly(content, historical);
    FixWithoutPromotion(Parse(content), historical);
    PassCompactsExactly(Parse(content).sections, historical);
    PassDropsExactly(Parse(content).sections, historical);
  }

  /** Normalizing a section again changes nothing if and only if its bodies merge tight. */
  lemma NormalizeTwiceOnInput(s: Section)
    ensures NormalizeSection(NormalizeSection(s)) == NormalizeSection(s) <==> MergesTight(map[], s.subs)
  {
    hide NormalizeSection, MergesTight;
    NormalizeIsNearlyNormal(s);
    SettledExactly(NormalizeSection(s));
    NormalizedSettles(s);
  }
}
