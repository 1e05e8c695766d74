/** Exactly when one pass of the changelog fixer is enough (scripts/fix-changelogs.ts:310-329, 382-410, 531-580). */
module ChangelogExact {
  import opened Lists
  import opened Items
  import opened StableSort
  import opened ChangelogText
  import opened ChangelogDocument
  import opened ChangelogFix
  import opened ChangelogItems
  import opened ChangelogValidity
  import opened ChangelogStability

  // -------------------------------------------- what a pass leaves without conditions

  lemma {:induction false} MergeSubsTrimmed(acc: seq<Sub>, subs: seq<Sub>)
    requires TrimSubs(acc) == acc && Filled(acc)
    ensures TrimSubs(MergeSubs(acc, subs)) == MergeSubs(acc, subs)
    decreases |subs|
  {
    hide MergeSub, TrimSubs, Filled;
    if subs != [] {
      MergeSubTrimmed(acc, subs[0]);
      MergeKeepsFilled(acc, subs[0]);
      MergeSubsTrimmed(MergeSub(acc, subs[0]), subs[1..]);
    }
  }

  /** Every body is trimmed and not blank. */
  ghost predicate Tight(subs: seq<Sub>) {
    forall i :: 0 <= i < |subs| ==> TrimBlank(subs[i].lines) == subs[i].lines != []
  }

  lemma {:induction false} TightIsTrimmed(subs: seq<Sub>)
    ensures Tight(subs) <==> TrimSubs(subs) == subs && Filled(subs)
  {
    hide TrimBlank;
    if subs != [] {
      TightIsTrimmed(subs[1..]);
      var body, rest := TrimBlank(subs[0].lines), TrimSubs(subs[1..]);
      assert subs == [subs[0]] + subs[1..];
      if body != [] {
        assert TrimSubs(subs)[1..] == rest;
        assert TrimSubs(subs) == subs <==> Sub(subs[0].title, body) == subs[0] && rest == subs[1..];
      }
      TightCons(subs);
    }
  }

  lemma TightCons(subs: seq<Sub>)
    requires subs != []
    ensures Tight(subs) <==> TrimBlank(subs[0].lines) == subs[0].lines != [] && Tight(subs[1..])
    ensures Filled(subs) <==> TrimBlank(subs[0].lines) != [] && Filled(subs[1..])
  {
    hide TrimBlank;
    assert subs == [subs[0]] + subs[1..];
  }

  lemma MergeSubTrimmed(acc: seq<Sub>, s: Sub)
    requires TrimSubs(acc) == acc && Filled(acc)
    ensures TrimSubs(MergeSub(acc, s)) == MergeSub(acc, s)
  {
    hide MergeSub, TrimSubs, Filled, Tight;
    TightIsTrimmed(acc);
    MergeSubTight(acc, s);
    TightIsTrimmed(MergeSub(acc, s));
  }

  lemma MergeSubTight(acc: seq<Sub>, s: Sub)
    requires Tight(acc)
    ensures Tight(MergeSub(acc, s))
  {
    hide TrimBlank, CompactLines, AppendLines, Find;
    var lines, k := CompactLines(s.lines), Find(acc, s.title);
    CompactKeepsStart(s.lines);
    if k < |acc| {
      AppendTrimmed(acc[k].lines, lines);
    }
  }

  /** What normalizing always gives: trimmed, no title repeated, in order. */
  ghost predicate NearlyNormal(s: Section) {
    && TrimSection(s) == s && UniqueTitles(s.subs)
    && (IsUnreleased(s) ==> SortBy(TitleOrder, s.subs) == s.subs)
  }

  lemma NormalizeIsNearlyNormal(s: Section)
    ensures NearlyNormal(NormalizeSection(s))
  {
    hide IsUnreleased, TrimBlank, UniqueTitles, TrimSubs, Filled, MergeSubs;
    var subs, n := MergeSubs([], s.subs), NormalizeSection(s);
    NothingTight();
    MergeSubsTrimmed([], s.subs);
    MergeSubsUnique([], s.subs);
    MergedFilled([], s.subs);
    TrimBlankTwice(s.leading);
    SameTitleSameKind(s, n);
    TitleOrderConsistent();
    EveryAny(subs);
    SortTwice(TitleOrder, AnySub, subs);
    UniquePermuted(subs, SortBy(TitleOrder, subs));
    TightIsTrimmed(subs);
    TightMembers(subs, SortBy(TitleOrder, subs));
    TightIsTrimmed(SortBy(TitleOrder, subs));
  }

  lemma NothingTight()
    ensures TrimSubs([]) == [] && Filled([]) && UniqueTitles([])
  {}

  lemma TightMembers(a: seq<Sub>, b: seq<Sub>)
    requires Tight(a) && multiset(a) == multiset(b)
    ensures Tight(b)
  {
    hide TrimBlank;
    SameMembers(a, b);
    forall i | 0 <= i < |b| ensures TrimBlank(b[i].lines) == b[i].lines != [] {
      assert b[i] in a;
    }
  }

  lemma {:induction false} MergedFilled(acc: seq<Sub>, subs: seq<Sub>)
    requires Filled(acc)
    ensures Filled(MergeSubs(acc, subs))
    decreases |subs|
  {
    hide MergeSub, Filled;
    if subs != [] {
      MergeKeepsFilled(acc, subs[0]);
      MergedFilled(MergeSub(acc, subs[0]), subs[1..]);
    }
  }

  /** A nearly normal section is left alone exactly when its bodies are compact. */
  lemma SettledExactly(s: Section)
    requires NearlyNormal(s)
    ensures NormalizeSection(s) == s <==> AllSettled(s.subs)
  {
    hide IsUnreleased, TrimBlank, AllSettled, UniqueTitles, TrimSubs;
    assert [] + s.subs == s.subs && [] + CompactEach(s.subs) == CompactEach(s.subs);
    MergeUnique([], s.subs);
    if AllSettled(s.subs) {
      SettledIsFixed(s.subs);
    }
    if NormalizeSection(s) == s {
      CompactEachSettles(s.subs);
      SettledMembers(CompactEach(s.subs), SortBy(TitleOrder, CompactEach(s.subs)));
    }
  }

  ghost predicate AllNearlyNormal(ss: seq<Section>) {
    forall i :: 0 <= i < |ss| ==> NearlyNormal(ss[i])
  }

  lemma {:induction false} NormalizeAllNearlyNormal(ss: seq<Section>)
    ensures AllNearlyNormal(NormalizeSections(ss))
  {
    hide NearlyNormal, NormalizeSection;
    if ss != [] {
      NormalizeIsNearlyNormal(ss[0]);
      NormalizeAllNearlyNormal(ss[1..]);
    }
  }

  lemma {:induction false} NearlyNormalIsTrimmed(ss: seq<Section>)
    requires AllNearlyNormal(ss)
    ensures TrimSections(ss) == ss
  {
    hide TrimSection, UniqueTitles, IsUnreleased;
    if ss != [] {
      assert NearlyNormal(ss[0]);
      NearlyNormalIsTrimmed(ss[1..]);
    }
  }

  /** Every body of the document is compact. */
  ghost predicate AllCompact(ss: seq<Section>) {
    forall i :: 0 <= i < |ss| ==> AllSettled(ss[i].subs)
  }

  lemma {:induction false} AllCompactExactly(ss: seq<Section>)
    requires AllNearlyNormal(ss)
    ensures NormalizeSections(ss) == ss <==> AllCompact(ss)
  {
    hide NearlyNormal, NormalizeSection, AllSettled;
    if ss != [] {
      assert NearlyNormal(ss[0]);
      SettledExactly(ss[0]);
      AllCompactExactly(ss[1..]);
      assert ss == [ss[0]] + ss[1..];
      assert NormalizeSections(ss) == ss <==> NormalizeSection(ss[0]) == ss[0] && NormalizeSections(ss[1..]) == ss[1..] by {
        assert NormalizeSections(ss)[0] == NormalizeSection(ss[0]) && NormalizeSections(ss)[1..] == NormalizeSections(ss[1..]);
      }
      AllCompactParts(ss);
    }
  }

  lemma AllCompactParts(ss: seq<Section>)
    requires ss != []
    ensures AllCompact(ss) <==> AllSettled(ss[0].subs) && AllCompact(ss[1..])
  {
    hide AllSettled;
    assert ss == [ss[0]] + ss[1..];
  }

  // ----------------------------------------------------------------- the order

  /** Unreleased sections first, the others in descending order. */
  ghost predicate InOrder(ss: seq<Section>, k: nat) {
    && k <= |ss| && (forall i :: 0 <= i < |ss| ==> (IsUnreleased(ss[i]) <==> i < k))
    && (forall i, j :: k <= i < j < |ss| ==> CompareSections(ss[i], ss[j]) <= 0)
  }

  lemma SortedInOrder(ss: seq<Section>)
    requires NumericTitles(ss)
    ensures InOrder(SortSections(ss), |Filter(IsUnreleased, ss)|)
  {
    hide IsUnreleased, Numeric, CompareSections;
    var u, r := Filter(IsUnreleased, ss), SortBy(CompareSections, Filter(IsReleased, ss));
    SameMembers(r, Filter(IsReleased, ss));
    NumericIsConsistent();
    ReleasedNumeric(ss);
    SortAscending(CompareSections, Numeric, Filter(IsReleased, ss));
    JoinedInOrder(u, r);
  }

  lemma JoinedInOrder(u: seq<Section>, r: seq<Section>)
    requires (forall s :: s in u ==> IsUnreleased(s)) && (forall s :: s in r ==> IsReleased(s)) && Ascending(CompareSections, r)
    ensures InOrder(u + r, |u|)
  {
    hide IsUnreleased, CompareSections;
    var all := u + r;
    forall i | 0 <= i < |all| ensures IsUnreleased(all[i]) <==> i < |u| {
      if i < |u| {
        assert all[i] in u;
      } else {
        assert all[i] == r[i - |u|] && r[i - |u|] in r;
      }
    }
    forall i, j | |u| <= i < j < |all| ensures CompareSections(all[i], all[j]) <= 0 {
      assert all[i] == r[i - |u|] && all[j] == r[j - |u|];
    }
  }

  lemma InOrderParts(ss: seq<Section>, k: nat)
    requires InOrder(ss, k)
    ensures Every(IsUnreleased, ss[..k]) && Lacks(IsReleased, ss[..k])
    ensures Lacks(IsUnreleased, ss[k..]) && Every(IsReleased, ss[k..]) && Ascending(CompareSections, ss[k..])
  {
    hide IsUnreleased, CompareSections;
  }

  lemma InOrderIsSorted(ss: seq<Section>, k: nat)
    requires InOrder(ss, k)
    ensures SortSections(ss) == ss
  {
    InOrderParts(ss, k);
    hide IsUnreleased, IsReleased, CompareSections, InOrder, Every, Lacks, Ascending;
    var u, r := ss[..k], ss[k..];
    assert ss == u + r;
    FilterAppend(IsUnreleased, u, r);
    FilterAppend(IsReleased, u, r);
    FilterAll(IsUnreleased, u);
    FilterNone(IsReleased, u);
    FilterNone(IsUnreleased, r);
    FilterAll(IsReleased, r);
    assert u + [] == u && [] + r == r;
    AscendingIsFixed(CompareSections, r);
  }

  lemma SameOrder(a: seq<Section>, b: seq<Section>, k: nat)
    requires InOrder(a, k) && SameHeadings(a, b)
    ensures InOrder(b, k)
  {
    hide CompareParts, VersionParts;
    forall i | 0 <= i < |b| ensures IsUnreleased(b[i]) <==> i < k {
      SameTitleSameKind(a[i], b[i]);
    }
    forall i, j | k <= i < j < |b| ensures CompareSections(b[i], b[j]) <= 0 {
      assert a[i].Title() == b[i].Title() && a[j].Title() == b[j].Title();
      assert CompareSections(a[i], a[j]) <= 0;
    }
  }

  // -------------------------------------------------------------- the theorem

  /** What a pass always leaves. */
  ghost predicate Passed(e: seq<Section>) {
    AllNearlyNormal(e) && AllNoRepeats(e) && exists k :: InOrder(e, k)
  }

  lemma PassLeaves(ss: seq<Section>, historical: set<Lines>)
    requires NumericTitles(ss)
    ensures Passed(Pass(ss, historical))
  {
    hide NearlyNormal, NoRepeats, InOrder, NumericTitles, DropDuplicates, NormalizeSections, SortSections;
    var dropped := DropDuplicates(ss, historical);
    var n := NormalizeSections(dropped);
    PassRemovesRepeats(ss, historical);
    NormalizeAllNearlyNormal(dropped);
    SortMembers(n);
    NearlyNormalMembers(n, SortSections(n));
    DropHeadings(ss, historical);
    NormalizeAllNoRepeats(dropped);
    HeadingsChain(ss, dropped, n);
    NumericSame(ss, n);
    SortedInOrder(n);
  }

  lemma NearlyNormalMembers(a: seq<Section>, b: seq<Section>)
    requires AllNearlyNormal(a) && forall s :: s in b ==> s in a
    ensures AllNearlyNormal(b)
  {
    hide NearlyNormal;
    forall i | 0 <= i < |b| ensures NearlyNormal(b[i]) {
      assert b[i] in a;
    }
  }

  /** The second pass has something to drop only if it changes the items of the first section. */
  lemma NothingDropped(ss: seq<Section>, historical: set<Lines>, e: seq<Section>)
    requires AllNoRepeats(ss) && TrimSections(ss) == e && Pass(ss, historical) == e
    requires exists k :: InOrder(e, k)
    ensures NothingToDrop(ss, historical)
  {
    hide IsUnreleased, SubsBullets, ReleasedBullets, Normalized, AllNoRepeats, SortSections, DropDuplicates, NormalizeSections, CompareSections;
    var dropped := DropDuplicates(ss, historical);
    DroppedNoRepeats(ss, historical);
    NormalizeAll(dropped);
    var n := NormalizeSections(dropped);
    DroppedCovered(ss, historical, n);
    CoveredParts(n, ss);
    SameFirst(n, ss);
    FirstInFront(n);
    TrimmedCovers(ss);
    CoveredParts(TrimSections(ss), ss);
    SameFirst(TrimSections(ss), ss);
  }

  lemma TrimmedDrop(ss: seq<Section>, historical: set<Lines>)
    ensures NothingToDrop(ss, historical) <==> NothingToDrop(TrimSections(ss), historical)
  {
    hide IsUnreleased, SubsBullets, ReleasedBullets, Covered;
    TrimmedCovers(ss);
    CoveredParts(ss, TrimSections(ss));
    SameFirst(ss, TrimSections(ss));
    CoveredReleased(ss, TrimSections(ss));
    CoveredReleased(TrimSections(ss), ss);
  }

  /** Read again, however padded, a document that a pass left is left alone exactly when there is
      nothing to drop and every body is compact. */
  lemma PassAgainExactly(ss: seq<Section>, historical: set<Lines>)
    requires Passed(TrimSections(ss)) && AllNoRepeats(ss)
    ensures Pass(ss, historical) == TrimSections(ss) <==> NothingLeft(TrimSections(ss), historical)
  {
    hide AllNearlyNormal, InOrder, NothingToDrop, AllCompact, SortSections, DropDuplicates, NormalizeSections, AllNoRepeats;
    var e := TrimSections(ss);
    var k :| InOrder(e, k);
    TrimmedDrop(ss, historical);
    AllCompactExactly(e);
    NormalizeAllTrimmed(ss);
    NormalizeAllNoRepeats(e);
    SameOrder(e, NormalizeSections(e), k);
    InOrderIsSorted(NormalizeSections(e), k);
    if Pass(ss, historical) == e {
      NothingDropped(ss, historical, e);
    }
    if NothingToDrop(e, historical) {
      DropNothing(ss, historical);
    }
  }

  /** A second pass changes nothing exactly when the first has left nothing to drop, and every
      body it has merged is compact. */
  lemma SecondPassExactly(content: string, historical: set<Lines>)
    requires NumericTitles(Parse(content).sections)
    ensures FixContent(FixContent(content, {}, historical), {}, historical) == FixContent(content, {}, historical)
      <==> NothingLeft(Fix(Parse(content), {}, historical).sections, historical)
  {
    hide NumericTitles, Parse, Render, Fix, TrimSections, NothingLeft, Passed, AllNoRepeats, FixContent, Pass;
    var first := FixContent(content, {}, historical);
    var e, d2 := Fix(Parse(content), {}, historical), Parse(first);
    FixContentIs(content, {}, historical);
    FixContentIs(first, {}, historical);
    FirstPass(content, historical);
    FixWithoutPromotion(d2, historical);
    PassAgainExactly(d2.sections, historical);
    SamePrintSameDocument(content, historical, d2, e, Fix(d2, {}, historical));
  }

  ghost predicate NothingLeft(e: seq<Section>, historical: set<Lines>) {
    NothingToDrop(e, historical) && AllCompact(e)
  }

  /** What is known of the document a fixed text reads back as. */
  lemma FirstPass(content: string, historical: set<Lines>)
    requires NumericTitles(Parse(content).sections)
    ensures var e, d2 := Fix(Parse(content), {}, historical), Parse(FixContent(content, {}, historical));
      && TrimDoc(d2) == TrimDoc(e) && TrimSections(e.sections) == e.sections && TrimSections(d2.sections) == e.sections
      && Passed(e.sections) && AllNoRepeats(d2.sections) && NumericTitles(d2.sections)
  {
    hide NumericTitles, Parse, Render, Fix, TrimSections, InOrder, AllNoRepeats, AllNearlyNormal, FixContent, Pass;
    var d, e := Parse(content), Fix(Parse(content), {}, historical);
    FixWithoutPromotion(d, historical);
    PassLeaves(d.sections, historical);
    PassRemovesRepeats(d.sections, historical);
    NearlyNormalIsTrimmed(e.sections);
    FixedTextReadsBack(content, {}, historical);
    TrimmedConditions(e.sections);
    TrimmedConditions(Parse(FixContent(content, {}, historical)).sections);
  }

  lemma SamePrintSameDocument(content: string, historical: set<Lines>, d2: Doc, e: Doc, e2: Doc)
    requires e == Fix(Parse(content), {}, historical) && d2 == Parse(Render(e)) && e2 == Fix(d2, {}, historical)
    requires TrimDoc(d2) == TrimDoc(e) && e2.prefix == d2.prefix
    requires TrimSections(e.sections) == e.sections && NumericTitles(d2.sections)
    ensures Render(e2) == Render(e) <==> e2.sections == e.sections
  {
    hide Fix, Parse, Render, TrimSections, NumericTitles, DocOk, TrimBlank, Pass, AllNearlyNormal, InOrder, AllNoRepeats;
    ParseOk(content);
    FixOk(Parse(content), {}, historical);
    ParseOk(Render(e));
    FixOk(d2, {}, historical);
    ParseAfterRender(e);
    ParseAfterRender(e2);
    FixWithoutPromotion(d2, historical);
    PassLeaves(d2.sections, historical);
    NearlyNormalIsTrimmed(e2.sections);
    RenderTrimmed(e);
    RenderTrimmed(e2);
  }
}
