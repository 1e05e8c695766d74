/** Fixing settles: with nothing to promote, a pass over a fixed text changes nothing
    (scripts/fix-changelogs.ts:310-329, 359-419, 449-462, 531-580). */
module ChangelogStability {
  import opened Basics
  import opened Lists
  import opened Items
  import opened StableSort
  import opened ChangelogText
  import opened ChangelogDocument
  import opened ChangelogFix
  import opened ChangelogItems
  import opened ChangelogValidity

  // ------------------------------------------------------ the version order

  function Sum(a: seq<Option<int>>, b: seq<Option<int>>, c: seq<Option<int>>): nat {
    |a| + |b| + |c|
  }

  lemma TailNumbers(a: seq<Option<int>>)
    requires AllNumbers(a)
    ensures AllNumbers(TailOr(a)) && HeadOr(a).Some? && (a != [] ==> |TailOr(a)| < |a|)
  {}

  lemma {:induction false} CompareTotal(a: seq<Option<int>>, b: seq<Option<int>>)
    requires AllNumbers(a) && AllNumbers(b)
    ensures CompareParts(a, b) == -CompareParts(b, a)
    decreases |a| + |b|
  {
    if a != [] || b != [] {
      TailNumbers(a);
      TailNumbers(b);
      CompareTotal(TailOr(a), TailOr(b));
    }
  }

  lemma {:induction false} CompareTransitive(a: seq<Option<int>>, b: seq<Option<int>>, c: seq<Option<int>>)
    requires AllNumbers(a) && AllNumbers(b) && AllNumbers(c)
    requires CompareParts(a, b) <= 0 && CompareParts(b, c) <= 0
    ensures CompareParts(a, c) <= 0
    decreases Sum(a, b, c)
  {
    if a != [] || b != [] || c != [] {
      TailNumbers(a);
      TailNumbers(b);
      TailNumbers(c);
      ComparePadded(a, b);
      ComparePadded(b, c);
      ComparePadded(a, c);
      if HeadOr(a) == HeadOr(b) == HeadOr(c) {
        CompareTransitive(TailOr(a), TailOr(b), TailOr(c));
      }
    }
  }

  /** The comparison unfolds also when both lists are used up. */
  lemma ComparePadded(a: seq<Option<int>>, b: seq<Option<int>>)
    requires AllNumbers(a) && AllNumbers(b)
    ensures HeadOr(a).Some? && HeadOr(b).Some?
    ensures CompareParts(a, b) == if HeadOr(a) == HeadOr(b) then CompareParts(TailOr(a), TailOr(b)) else HeadOr(b).value - HeadOr(a).value
  {}

  /** Numeric titles are totally ordered. */
  lemma NumericIsConsistent()
    ensures Consistent(CompareSections, Numeric)
  {
    hide AllNumbers, CompareParts, VersionParts;
    forall x, y | Numeric(x) && Numeric(y) ensures CompareSections(x, y) <= 0 || CompareSections(y, x) <= 0 {
      CompareTotal(VersionParts(x.Title()), VersionParts(y.Title()));
    }
    forall x, y, z | Numeric(x) && Numeric(y) && Numeric(z) && CompareSections(x, y) <= 0 && CompareSections(y, z) <= 0
      ensures CompareSections(x, z) <= 0
    {
      CompareTransitive(VersionParts(x.Title()), VersionParts(y.Title()), VersionParts(z.Title()));
    }
  }

  ghost predicate AnySub(s: Sub) {
    true
  }

  lemma TitleOrderConsistent()
    ensures Consistent(TitleOrder, AnySub)
  {
    hide IndexOf;
  }

  // ------------------------------------------------------------ normalizing

  /** The subsections of a section without repeated titles, each compacted, blank ones gone. */
  function CompactEach(subs: seq<Sub>): seq<Sub> {
    if subs == [] then []
    else
      var lines := CompactLines(subs[0].lines);
      (if lines == [] then [] else [Sub(subs[0].title, lines)]) + CompactEach(subs[1..])
  }

  lemma {:induction false} FindNothing(subs: seq<Sub>, title: string)
    requires forall i :: 0 <= i < |subs| ==> subs[i].title != title
    ensures Find(subs, title) == |subs|
  {
    if subs != [] {
      FindNothing(subs[1..], title);
    }
  }

  /** Without repeated titles nothing merges. */
  lemma {:induction false} MergeUnique(acc: seq<Sub>, subs: seq<Sub>)
    requires UniqueTitles(acc + subs)
    ensures MergeSubs(acc, subs) == acc + CompactEach(subs)
    decreases |subs|
  {
    hide CompactLines, AppendLines, Find;
    if subs == [] {
      assert acc + [] == acc;
    } else {
      var s, all := subs[0], acc + subs;
      var lines := CompactLines(s.lines);
      forall i | 0 <= i < |acc| ensures acc[i].title != s.title {
        assert all[i] == acc[i] && all[|acc|] == s;
      }
      FindNothing(acc, s.title);
      UniqueWithout(acc, subs, lines);
      MergeUnique(MergeSub(acc, s), subs[1..]);
      assert acc + [Sub(s.title, lines)] + CompactEach(subs[1..]) == acc + ([Sub(s.title, lines)] + CompactEach(subs[1..]));
      assert [] + CompactEach(subs[1..]) == CompactEach(subs[1..]);
    }
  }

  lemma UniqueWithout(acc: seq<Sub>, subs: seq<Sub>, lines: Lines)
    requires subs != [] && UniqueTitles(acc + subs)
    ensures UniqueTitles(acc + subs[1..]) && UniqueTitles(acc + [Sub(subs[0].title, lines)] + subs[1..])
  {
    var all := acc + subs;
    var less, more := acc + subs[1..], acc + [Sub(subs[0].title, lines)] + subs[1..];
    forall i, j | 0 <= i < j < |less| ensures less[i].title != less[j].title {
      var p, q := if i < |acc| then i else i + 1, if j < |acc| then j else j + 1;
      assert all[p] == less[i] && all[q] == less[j];
    }
    forall i, j | 0 <= i < j < |more| ensures more[i].title != more[j].title {
      assert all[i].title == more[i].title && all[j].title == more[j].title;
    }
  }

  /** Compacted, and not blank. */
  ghost predicate Settled(s: Sub) {
    CompactLines(s.lines) == s.lines != []
  }

  ghost predicate AllSettled(subs: seq<Sub>) {
    forall i :: 0 <= i < |subs| ==> Settled(subs[i])
  }

  lemma CompactSettles(ls: Lines)
    ensures CompactLines(CompactLines(ls)) == CompactLines(ls)
  {
    BulletsApart();
    CompactTwice(IsBullet, IsBlank, ls);
  }

  lemma {:induction false} CompactEachSettles(subs: seq<Sub>)
    ensures AllSettled(CompactEach(subs))
    ensures SubsBullets(CompactEach(subs)) == SubsBullets(subs)
  {
    hide CompactLines, Bullets;
    if subs != [] {
      CompactEachSettles(subs[1..]);
      var s := Sub(subs[0].title, CompactLines(subs[0].lines));
      CompactSettles(subs[0].lines);
      CompactKeepsBullets(subs[0].lines);
      NoBullets();
      SubsBulletsCons(s, CompactEach(subs[1..]));
      SubsBulletsCons(subs[0], subs[1..]);
      assert [subs[0]] + subs[1..] == subs;
      assert [] + CompactEach(subs[1..]) == CompactEach(subs[1..]);
    }
  }

  lemma {:induction false} SettledIsFixed(subs: seq<Sub>)
    requires AllSettled(subs)
    ensures CompactEach(subs) == subs && TrimSubs(subs) == subs
  {
    hide CompactLines, TrimBlank;
    if subs != [] {
      assert Settled(subs[0]);
      SettledIsFixed(subs[1..]);
      CompactKeepsStart(subs[0].lines);
    }
  }

  ghost function Titles(subs: seq<Sub>): set<string> {
    set s | s in subs :: s.title
  }

  lemma UniqueCons(s: Sub, rest: seq<Sub>)
    ensures UniqueTitles([s] + rest) <==> s.title !in Titles(rest) && UniqueTitles(rest)
    ensures Titles([s] + rest) == {s.title} + Titles(rest)
  {
    var all := [s] + rest;
    if UniqueTitles(all) {
      forall i, j | 0 <= i < j < |rest| ensures rest[i].title != rest[j].title {
        assert all[i + 1] == rest[i] && all[j + 1] == rest[j];
      }
      forall t | t in rest ensures t.title != s.title {
        var i :| 0 <= i < |rest| && rest[i] == t;
        assert all[i + 1] == t && all[0] == s;
      }
    }
    assert forall t :: t in all <==> t == s || t in rest;
  }

  lemma {:induction false} CompactEachUnique(subs: seq<Sub>)
    requires UniqueTitles(subs)
    ensures UniqueTitles(CompactEach(subs)) && Titles(CompactEach(subs)) <= Titles(subs)
  {
    hide CompactLines, UniqueTitles, Titles;
    if subs != [] {
      var rest := CompactEach(subs[1..]);
      assert subs == [subs[0]] + subs[1..] && [] + rest == rest;
      UniqueCons(subs[0], subs[1..]);
      UniqueCons(Sub(subs[0].title, CompactLines(subs[0].lines)), rest);
      CompactEachUnique(subs[1..]);
    }
  }

  lemma UniquePermuted(a: seq<Sub>, b: seq<Sub>)
    requires UniqueTitles(a) && multiset(a) == multiset(b)
    ensures UniqueTitles(b)
  {
    DistinctPermuted(a, b);
    SameMembers(a, b);
    forall i, j | 0 <= i < j < |b| ensures b[i].title != b[j].title {
      assert b[i] in a && b[j] in a && b[i] != b[j];
    }
  }

  /** A section that normalizing leaves alone. */
  ghost predicate Normal(s: Section) {
    && TrimBlank(s.leading) == s.leading
    && AllSettled(s.subs) && UniqueTitles(s.subs)
    && (IsUnreleased(s) ==> SortBy(TitleOrder, s.subs) == s.subs)
  }

  lemma NormalIsFixed(s: Section)
    requires Normal(s)
    ensures NormalizeSection(s) == s && TrimSection(s) == s
  {
    hide IsUnreleased, TrimBlank, AllSettled, UniqueTitles;
    assert [] + s.subs == s.subs;
    MergeUnique([], s.subs);
    SettledIsFixed(s.subs);
    assert [] + CompactEach(s.subs) == s.subs;
  }

  /** Normalizing sees a section only up to edge blank lines. */
  lemma {:induction false} MergeTrimmed(acc: seq<Sub>, subs: seq<Sub>)
    ensures MergeSubs(acc, TrimSubs(subs)) == MergeSubs(acc, subs)
    decreases |subs|
  {
    hide CompactLines, AppendLines, Find, TrimBlank;
    if subs != [] {
      var s := subs[0];
      var body := TrimBlank(s.lines);
      CompactTrimmed(s.lines);
      CompactKeepsStart(s.lines);
      MergeTrimmed(MergeSub(acc, s), subs[1..]);
      if body == [] {
        assert [] + TrimSubs(subs[1..]) == TrimSubs(subs[1..]);
      } else {
        var t := Sub(s.title, body);
        assert MergeSub(acc, t) == MergeSub(acc, s);
        assert ([t] + TrimSubs(subs[1..]))[1..] == TrimSubs(subs[1..]);
      }
    }
  }

  lemma CompactTrimmed(ls: Lines)
    ensures CompactLines(TrimBlank(ls)) == CompactLines(ls)
  {
    CompactTrim(IsBullet, IsBlank, ls);
  }

  lemma NormalizeTrimmed(s: Section)
    ensures NormalizeSection(TrimSection(s)) == NormalizeSection(s)
  {
    hide IsUnreleased, TrimBlank, MergeSubs, TrimSubs;
    MergeTrimmed([], s.subs);
    TrimBlankTwice(s.leading);
    SameTitleSameKind(s, TrimSection(s));
  }

  /** No two subsections with something under them share a title. */
  ghost predicate NoRepeats(s: Section) {
    UniqueTitles(TrimSubs(s.subs))
  }

  /** Without repeated titles, a normalized section is normal and has the same items. */
  lemma NormalizeGivesNormal(s: Section)
    requires NoRepeats(s)
    ensures Normal(NormalizeSection(s)) && SubsBullets(NormalizeSection(s).subs) == SubsBullets(s.subs)
  {
    hide IsUnreleased, TrimBlank, AllSettled, UniqueTitles, SubsBullets, NormalizeSection, Normal;
    NormalizeTrimmed(s);
    TrimSubsBullets(s.subs);
    NormalizeUnique(TrimSection(s));
  }

  lemma NormalizeUnique(s: Section)
    requires UniqueTitles(s.subs)
    ensures Normal(NormalizeSection(s)) && SubsBullets(NormalizeSection(s).subs) == SubsBullets(s.subs)
  {
    hide IsUnreleased, TrimBlank, AllSettled, UniqueTitles, SubsBullets;
    var subs := CompactEach(s.subs);
    assert [] + s.subs == s.subs && [] + subs == subs;
    MergeUnique([], s.subs);
    CompactEachSettles(s.subs);
    CompactEachUnique(s.subs);
    TrimBlankTwice(s.leading);
    TitleOrderConsistent();
    EveryAny(subs);
    SortTwice(TitleOrder, AnySub, subs);
    UniquePermuted(subs, SortBy(TitleOrder, subs));
    SettledMembers(subs, SortBy(TitleOrder, subs));
    SubsBulletsPermuted(subs, SortBy(TitleOrder, subs));
    SameTitleSameKind(s, NormalizeSection(s));
  }

  lemma SameTitleSameKind(a: Section, b: Section)
    requires a.heading == b.heading
    ensures IsUnreleased(a) <==> IsUnreleased(b)
  {}

  lemma EveryAny(subs: seq<Sub>)
    ensures Every(AnySub, subs)
  {}

  lemma SettledMembers(a: seq<Sub>, b: seq<Sub>)
    requires AllSettled(a) && multiset(a) == multiset(b)
    ensures AllSettled(b)
  {
    hide Settled;
    SameMembers(a, b);
    forall i | 0 <= i < |b| ensures Settled(b[i]) {
      assert b[i] in a;
    }
  }

  ghost predicate AllNormal(ss: seq<Section>) {
    forall i :: 0 <= i < |ss| ==> Normal(ss[i])
  }

  lemma {:induction false} AllNormalIsFixed(ss: seq<Section>)
    requires AllNormal(ss)
    ensures NormalizeSections(ss) == ss && TrimSections(ss) == ss
  {
    hide Normal, NormalizeSection, TrimSection;
    if ss != [] {
      NormalIsFixed(ss[0]);
      AllNormalIsFixed(ss[1..]);
    }
  }

  lemma AllNormalMembers(a: seq<Section>, b: seq<Section>)
    requires AllNormal(a) && forall s :: s in b ==> s in a
    ensures AllNormal(b)
  {
    hide Normal;
    forall i | 0 <= i < |b| ensures Normal(b[i]) {
      assert b[i] in a;
    }
  }

  // ------------------------------------------------- a pass without promotion

  lemma {:induction false} KeptNothing(cs: seq<Lines>, line: nat)
    ensures Kept(cs, line, {}) == cs && Moved(cs, line, {}) == []
    decreases |cs|
  {
    hide TrimBlank;
    if cs != [] {
      KeptNothing(cs[1..], line + |cs[0]|);
    }
  }

  lemma AddNothing(u: Section, title: string)
    ensures AddToSection(u, title, []) == u
  {}

  lemma {:induction false} PromoteSubsNothing(u: Section, subs: seq<Sub>, line: nat)
    ensures PromoteSubs(u, subs, line, {}) == (u, subs)
    decreases |subs|
  {
    hide IsBullet, Cut, Preamble, AddToSection, Kept, Moved, Flatten;
    if subs != [] {
      var ls := subs[0].lines;
      CutParts(IsBullet, ls);
      KeptNothing(Cut(IsBullet, ls), line + 1 + |Preamble(IsBullet, ls)|);
      PromoteSubsNothing(u, subs[1..], line + 1 + |ls|);
      AddNothing(u, subs[0].title);
      assert [subs[0]] + subs[1..] == subs;
    }
  }

  lemma {:induction false} PromoteSectionsNothing(u: Section, ss: seq<Section>, heights: seq<nat>, line: nat)
    requires |heights| == |ss|
    ensures PromoteSections(u, ss, heights, line, {}) == (u, ss)
    decreases |ss|
  {
    hide PromoteSubs, IsUnreleased;
    if ss != [] {
      PromoteSubsNothing(u, ss[0].subs, line + 1 + |ss[0].leading|);
      PromoteSectionsNothing(u, ss[1..], heights[1..], line + heights[0]);
      assert ss[0].(subs := ss[0].subs) == ss[0] && [ss[0]] + ss[1..] == ss;
    }
  }

  /** One pass when nothing is promotable. */
  function Pass(ss: seq<Section>, historical: set<Lines>): seq<Section> {
    SortSections(NormalizeSections(DropDuplicates(ss, historical)))
  }

  lemma FixWithoutPromotion(d: Doc, historical: set<Lines>)
    ensures Fix(d, {}, historical) == d.(sections := Pass(d.sections, historical))
  {
    hide PromoteSections, SortSections, NormalizeSections, DropDuplicates, Heights;
    HeightsLength(d.sections);
    DropLength(d.sections, historical);
    var ss := DropDuplicates(d.sections, historical);
    var k := FirstUnreleased(ss);
    PromoteSectionsNothing(if k < |ss| then ss[k] else NO_UNRELEASED, ss, Heights(d.sections), |d.prefix| + 1);
    if k < |ss| {
      assert ss[k := ss[k]] == ss;
    }
  }

  // ---------------------------------------------------- what a pass leaves true

  ghost predicate SameHeadings(a: seq<Section>, b: seq<Section>) {
    |a| == |b| && forall i :: 0 <= i < |a| ==> a[i].heading == b[i].heading
  }

  lemma SameFirst(a: seq<Section>, b: seq<Section>)
    requires SameHeadings(a, b)
    ensures FirstUnreleased(a) == FirstUnreleased(b)
  {
    hide IsUnreleased;
    forall i | 0 <= i < |a| ensures IsUnreleased(a[i]) == IsUnreleased(b[i]) {
      SameTitleSameKind(a[i], b[i]);
    }
    AheadSame(IsUnreleased, a, IsUnreleased, b);
  }

  /** No item of the first Unreleased section is released or historical. */
  ghost predicate NothingToDrop(ss: seq<Section>, historical: set<Lines>) {
    var k := FirstUnreleased(ss);
    k < |ss| ==> forall b :: b in SubsBullets(ss[k].subs) ==> b !in ReleasedBullets(ss) && b !in historical
  }

  lemma {:induction false} KeepAllChunks(cs: seq<Lines>, keys: set<Lines>)
    requires forall b :: b in Keys(cs) ==> b !in keys
    ensures KeepChunks(cs, keys) == cs
  {
    hide TrimBlank, Keys;
    if cs != [] {
      assert cs == [cs[0]] + cs[1..];
      KeysCons(cs[0], cs[1..]);
      KeepAllChunks(cs[1..], keys);
    }
  }

  lemma {:induction false} DropSubsNothing(subs: seq<Sub>, keys: set<Lines>)
    requires forall b :: b in SubsBullets(subs) ==> b !in keys
    ensures DropSubs(subs, keys) == subs
  {
    hide IsBullet, IsBlank, TrimBy, Chunks;
    if subs != [] {
      var ls := subs[0].lines;
      CutParts(IsBullet, ls);
      assert Keys(Cut(IsBullet, ls)) == ToSet(Bullets(ls));
      KeepAllChunks(Cut(IsBullet, ls), keys);
      DropSubsNothing(subs[1..], keys);
    }
  }

  lemma DropNothing(ss: seq<Section>, historical: set<Lines>)
    requires NothingToDrop(ss, historical)
    ensures DropDuplicates(ss, historical) == ss
  {
    hide SubsBullets, DropSubs, ReleasedBullets;
    var k := FirstUnreleased(ss);
    if k < |ss| {
      DropSubsNothing(ss[k].subs, ReleasedBullets(ss) + historical);
    }
  }

  ghost predicate NumericTitles(ss: seq<Section>) {
    forall i :: 0 <= i < |ss| && IsReleased(ss[i]) ==> Numeric(ss[i])
  }

  ghost predicate AllNoRepeats(ss: seq<Section>) {
    forall i :: 0 <= i < |ss| ==> NoRepeats(ss[i])
  }

  lemma TrimSubsCons(s: Sub, rest: seq<Sub>)
    ensures TrimSubs([s] + rest) == (if TrimBlank(s.lines) == [] then [] else [Sub(s.title, TrimBlank(s.lines))]) + TrimSubs(rest)
  {
    hide TrimBlank;
    assert ([s] + rest)[1..] == rest;
  }

  lemma {:induction false} DropKeepsNoRepeats(subs: seq<Sub>, keys: set<Lines>)
    requires UniqueTitles(TrimSubs(subs))
    ensures UniqueTitles(TrimSubs(DropSubs(subs, keys)))
    ensures Titles(TrimSubs(DropSubs(subs, keys))) <= Titles(TrimSubs(subs))
  {
    hide DropItems, TrimBlank, UniqueTitles, Titles, TrimSubs;
    if subs != [] {
      var s, t := subs[0], Sub(subs[0].title, DropItems(subs[0].lines, keys));
      var rest, dropped := TrimSubs(subs[1..]), TrimSubs(DropSubs(subs[1..], keys));
      assert subs == [s] + subs[1..];
      TrimSubsCons(s, subs[1..]);
      TrimSubsCons(t, DropSubs(subs[1..], keys));
      UniqueCons(Sub(s.title, TrimBlank(s.lines)), rest);
      UniqueCons(Sub(s.title, TrimBlank(t.lines)), dropped);
      assert [] + rest == rest && [] + dropped == dropped;
      DropKeepsNoRepeats(subs[1..], keys);
      if TrimBlank(s.lines) == [] {
        BlankStaysBlank(s.lines, keys);
      }
    }
  }

  lemma BlankStaysBlank(ls: Lines, keys: set<Lines>)
    requires TrimBlank(ls) == []
    ensures TrimBlank(DropItems(ls, keys)) == []
  {
    hide IsBullet, IsBlank, TrimBy;
    BulletsApart();
    TrimEmpty(IsBlank, ls);
    EveryLacks(IsBullet, IsBlank, ls);
    NoMarks(IsBullet, ls);
    assert ls + Flatten([]) == ls;
  }

  /** After a pass: sections normal, nothing to drop, in order, with the headings of before. */
  ghost predicate Fixed(ss: seq<Section>, historical: set<Lines>) {
    AllNormal(ss) && NothingToDrop(ss, historical) && SortSections(ss) == ss
  }

  lemma DroppedNoRepeats(ss: seq<Section>, historical: set<Lines>)
    requires AllNoRepeats(ss)
    ensures AllNoRepeats(DropDuplicates(ss, historical)) && SameHeadings(ss, DropDuplicates(ss, historical))
  {
    hide UniqueTitles, TrimSubs, DropSubs, ReleasedBullets;
    var k := FirstUnreleased(ss);
    if k < |ss| {
      assert NoRepeats(ss[k]);
      DropKeepsNoRepeats(ss[k].subs, ReleasedBullets(ss) + historical);
    }
  }

  /** What normalizing does to each section, as a whole. */
  ghost predicate Normalized(ss: seq<Section>, n: seq<Section>) {
    && SameHeadings(ss, n)
    && forall i :: 0 <= i < |ss| ==> Normal(n[i]) && SubsBullets(n[i].subs) == SubsBullets(ss[i].subs)
  }

  lemma {:induction false} NormalizeAll(ss: seq<Section>)
    requires AllNoRepeats(ss)
    ensures Normalized(ss, NormalizeSections(ss))
  {
    hide NoRepeats, Normal, SubsBullets, NormalizeSection, Normalized, AllNoRepeats;
    if ss == [] {
      NormalizedNothing();
    } else {
      NoRepeatsParts(ss);
      NormalizeGivesNormal(ss[0]);
      NormalizeHeading(ss[0]);
      NormalizeAll(ss[1..]);
      NormalizedCons(ss, NormalizeSection(ss[0]), NormalizeSections(ss[1..]));
    }
  }

  lemma NormalizedNothing()
    ensures Normalized([], [])
  {}

  lemma NoRepeatsParts(ss: seq<Section>)
    requires AllNoRepeats(ss) && ss != []
    ensures NoRepeats(ss[0]) && AllNoRepeats(ss[1..])
  {}

  lemma NormalizeHeading(s: Section)
    ensures NormalizeSection(s).heading == s.heading
  {}

  lemma NormalizedCons(ss: seq<Section>, s: Section, n: seq<Section>)
    requires ss != [] && Normalized(ss[1..], n) && Normal(s)
    requires s.heading == ss[0].heading && SubsBullets(s.subs) == SubsBullets(ss[0].subs)
    ensures Normalized(ss, [s] + n)
  {
    hide Normal, SubsBullets;
    var all := [s] + n;
    forall i | 0 <= i < |ss|
      ensures all[i].heading == ss[i].heading && Normal(all[i]) && SubsBullets(all[i].subs) == SubsBullets(ss[i].subs)
    {
      if i > 0 {
        assert all[i] == n[i - 1] && ss[i] == ss[1..][i - 1];
      }
    }
  }

  lemma SortMembers(ss: seq<Section>)
    ensures forall s :: s in SortSections(ss) <==> s in ss
  {
    hide IsUnreleased;
    SameMembers(SortBy(CompareSections, Filter(IsReleased, ss)), Filter(IsReleased, ss));
  }

  lemma ReleasedNumeric(ss: seq<Section>)
    requires NumericTitles(ss)
    ensures Every(Numeric, Filter(IsReleased, ss))
  {
    hide IsUnreleased, Numeric;
    forall i | 0 <= i < |Filter(IsReleased, ss)| ensures Numeric(Filter(IsReleased, ss)[i]) {
      assert Filter(IsReleased, ss)[i] in ss;
    }
  }

  /** Sorting sections twice is sorting them once. */
  lemma SortSectionsTwice(ss: seq<Section>)
    requires NumericTitles(ss)
    ensures SortSections(SortSections(ss)) == SortSections(ss)
  {
    hide IsUnreleased, Numeric;
    var u, r := Filter(IsUnreleased, ss), SortBy(CompareSections, Filter(IsReleased, ss));
    SameMembers(r, Filter(IsReleased, ss));
    FilterAppend(IsUnreleased, u, r);
    FilterAppend(IsReleased, u, r);
    FilterAll(IsUnreleased, u);
    FilterAll(IsReleased, r);
    FilterNone(IsUnreleased, r);
    FilterNone(IsReleased, u);
    NumericIsConsistent();
    ReleasedNumeric(ss);
    SortTwice(CompareSections, Numeric, Filter(IsReleased, ss));
    assert u + [] == u && [] + r == r;
  }

  lemma FirstInFront(n: seq<Section>)
    ensures var e := SortSections(n); var k := FirstUnreleased(n);
      && (FirstUnreleased(e) < |e| <==> k < |n|)
      && (k < |n| ==> FirstUnreleased(e) == 0 && e[0] == n[k])
  {
    hide IsUnreleased;
    FilterFirst(IsUnreleased, n);
    var e, r := SortSections(n), SortBy(CompareSections, Filter(IsReleased, n));
    SameMembers(r, Filter(IsReleased, n));
    if FirstUnreleased(n) == |n| {
      assert e == r;
      AheadIs(IsUnreleased, r, []);
      assert r + [] == r;
    } else {
      assert IsUnreleased(e[0]);
    }
  }

  /** Every released section of `a` has at most the items of its counterpart in `b`. */
  ghost predicate Covered(a: seq<Section>, b: seq<Section>) {
    && SameHeadings(a, b)
    && forall i :: 0 <= i < |a| && IsReleased(a[i]) ==> SubsBullets(a[i].subs) <= SubsBullets(b[i].subs)
  }

  lemma CoveredReleased(a: seq<Section>, b: seq<Section>)
    requires Covered(a, b)
    ensures ReleasedBullets(a) <= ReleasedBullets(b)
  {
    hide IsUnreleased, SubsBullets, ReleasedBullets;
    forall x | x in ReleasedBullets(a) ensures x in ReleasedBullets(b) {
      InReleased(a, x);
      var s :| s in a && IsReleased(s) && x in SubsBullets(s.subs);
      var i :| 0 <= i < |a| && a[i] == s;
      SameTitleSameKind(a[i], b[i]);
      assert b[i] in b;
      InReleased(b, x);
    }
  }

  lemma SortReleased(n: seq<Section>)
    ensures ReleasedBullets(SortSections(n)) == ReleasedBullets(n)
  {
    hide IsUnreleased, SectionsBullets;
    SortMembers(n);
    SectionsBulletsSame(Filter(IsReleased, SortSections(n)), Filter(IsReleased, n));
  }

  lemma DroppedCovered(ss: seq<Section>, historical: set<Lines>, n: seq<Section>)
    requires Normalized(DropDuplicates(ss, historical), n)
    ensures Covered(n, ss)
    ensures var k := FirstUnreleased(ss); k < |ss| ==>
      SubsBullets(n[k].subs) == SubsBullets(ss[k].subs) - (ReleasedBullets(ss) + historical)
  {
    hide IsUnreleased, SubsBullets, ReleasedBullets, Normal, DropSubs;
    var k, dropped := FirstUnreleased(ss), DropDuplicates(ss, historical);
    FirstUnreleasedIs(ss);
    if k < |ss| {
      DropSubsBullets(ss[k].subs, ReleasedBullets(ss) + historical);
      SameTitleSameKind(n[k], ss[k]);
    }
  }

  /** One pass over a document without repeated titles leaves nothing for another. */
  lemma PassFixes(ss: seq<Section>, historical: set<Lines>)
    requires AllNoRepeats(ss) && NumericTitles(ss)
    ensures Fixed(Pass(ss, historical), historical)
  {
    hide IsUnreleased, SubsBullets, ReleasedBullets, Normalized, AllNoRepeats, SortSections, DropDuplicates, NormalizeSections, NumericTitles, AllNormal, Covered, NothingToDrop;
    var dropped := DropDuplicates(ss, historical);
    DroppedNoRepeats(ss, historical);
    NormalizeAll(dropped);
    var n := NormalizeSections(dropped);
    DroppedCovered(ss, historical, n);
    SortMembers(n);
    NormalizedParts(dropped, n);
    AllNormalMembers(n, SortSections(n));
    CoveredParts(n, ss);
    NumericSame(ss, n);
    SortSectionsTwice(n);
    PassDropsAll(ss, historical, n);
  }

  lemma NormalizedParts(ss: seq<Section>, n: seq<Section>)
    requires Normalized(ss, n)
    ensures AllNormal(n) && SameHeadings(ss, n)
  {
    hide Normal;
  }

  lemma CoveredParts(a: seq<Section>, b: seq<Section>)
    requires Covered(a, b)
    ensures SameHeadings(a, b)
  {}

  lemma NumericSame(a: seq<Section>, b: seq<Section>)
    requires NumericTitles(a) && SameHeadings(b, a)
    ensures NumericTitles(b)
  {
    hide AllNumbers;
    forall i | 0 <= i < |b| && IsReleased(b[i]) ensures Numeric(b[i]) {
      assert b[i].Title() == a[i].Title();
      assert IsReleased(a[i]);
    }
  }

  lemma PassDropsAll(ss: seq<Section>, historical: set<Lines>, n: seq<Section>)
    requires Covered(n, ss)
    requires var k := FirstUnreleased(ss); k < |ss| ==> SubsBullets(n[k].subs) == SubsBullets(ss[k].subs) - (ReleasedBullets(ss) + historical)
    ensures NothingToDrop(SortSections(n), historical)
  {
    hide IsUnreleased, SubsBullets, ReleasedBullets, SortSections, Covered;
    CoveredParts(n, ss);
    SameFirst(n, ss);
    FirstInFront(n);
    SortReleased(n);
    CoveredReleased(n, ss);
  }

  // ------------------------------------------- reading the fixed text again

  lemma {:induction false} NormalizeAllTrimmed(ss: seq<Section>)
    ensures NormalizeSections(TrimSections(ss)) == NormalizeSections(ss)
  {
    hide NormalizeSection, TrimSection;
    if ss != [] {
      NormalizeTrimmed(ss[0]);
      NormalizeAllTrimmed(ss[1..]);
      assert TrimSections(ss)[1..] == TrimSections(ss[1..]);
    }
  }

  lemma {:induction false} TrimSectionsAt(ss: seq<Section>, i: nat)
    requires i < |ss|
    ensures |TrimSections(ss)| == |ss| && TrimSections(ss)[i] == TrimSection(ss[i])
  {
    hide TrimSection;
    if i > 0 {
      TrimSectionsAt(ss[1..], i - 1);
    } else {
      RenderTrimmedSections(ss);
    }
  }

  lemma TrimmedCovers(ss: seq<Section>)
    ensures Covered(ss, TrimSections(ss)) && Covered(TrimSections(ss), ss)
    ensures forall i :: 0 <= i < |ss| ==> SubsBullets(TrimSections(ss)[i].subs) == SubsBullets(ss[i].subs)
  {
    hide IsUnreleased, SubsBullets, TrimSubs, TrimBlank;
    RenderTrimmedSections(ss);
    forall i | 0 <= i < |ss|
      ensures TrimSections(ss)[i].heading == ss[i].heading && SubsBullets(TrimSections(ss)[i].subs) == SubsBullets(ss[i].subs)
    {
      TrimSectionsAt(ss, i);
      TrimSubsBullets(ss[i].subs);
    }
  }

  lemma NothingToDropTrimmed(ss: seq<Section>, historical: set<Lines>)
    requires NothingToDrop(TrimSections(ss), historical)
    ensures NothingToDrop(ss, historical)
  {
    hide IsUnreleased, SubsBullets, ReleasedBullets, Covered;
    TrimmedCovers(ss);
    CoveredParts(ss, TrimSections(ss));
    SameFirst(ss, TrimSections(ss));
    CoveredReleased(ss, TrimSections(ss));
  }

  /** A pass over a fixed document, however its edges are padded, only removes the padding. */
  lemma FixedStaysFixed(ss: seq<Section>, historical: set<Lines>)
    requires Fixed(TrimSections(ss), historical)
    ensures Pass(ss, historical) == TrimSections(ss)
  {
    hide AllNormal, NothingToDrop, SortSections, DropDuplicates, NormalizeSections;
    NothingToDropTrimmed(ss, historical);
    DropNothing(ss, historical);
    NormalizeAllTrimmed(ss);
    AllNormalIsFixed(TrimSections(ss));
  }

  lemma FixedIsTrimmed(ss: seq<Section>, historical: set<Lines>)
    requires Fixed(ss, historical)
    ensures TrimSections(ss) == ss
  {
    hide AllNormal, NothingToDrop, SortSections;
    AllNormalIsFixed(ss);
  }

  /** A second pass never changes what the first one wrote, when no section repeats the title of
      a subsection that has something under it. */
  lemma SecondPassChangesNothing(content: string, historical: set<Lines>)
    requires AllNoRepeats(Parse(content).sections) && NumericTitles(Parse(content).sections)
    ensures FixContent(FixContent(content, {}, historical), {}, historical) == FixContent(content, {}, historical)
  {
    hide AllNoRepeats, NumericTitles, Parse, Render, Pass, Fix, TrimSections, Fixed;
    var d := Parse(content);
    var e := Fix(d, {}, historical);
    var d2 := Parse(FixContent(content, {}, historical));
    var e2 := Fix(d2, {}, historical);
    FixWithoutPromotion(d, historical);
    PassFixes(d.sections, historical);
    FixedIsTrimmed(e.sections, historical);
    FixedTextReadsBack(content, {}, historical);
    FixWithoutPromotion(d2, historical);
    FixedStaysFixed(d2.sections, historical);
    assert TrimDoc(e2) == TrimDoc(e);
    RenderTrimmed(e);
    RenderTrimmed(e2);
  }

  // ------------------------------------------------------------ a third pass

  lemma {:induction false} MergeSubsUnique(acc: seq<Sub>, subs: seq<Sub>)
    requires UniqueTitles(acc)
    ensures UniqueTitles(MergeSubs(acc, subs))
    decreases |subs|
  {
    hide MergeSub, UniqueTitles;
    if subs != [] {
      MergeKeepsUnique(acc, subs[0]);
      MergeSubsUnique(MergeSub(acc, subs[0]), subs[1..]);
    }
  }

  lemma {:induction false} TrimKeepsUnique(subs: seq<Sub>)
    requires UniqueTitles(subs)
    ensures UniqueTitles(TrimSubs(subs)) && Titles(TrimSubs(subs)) <= Titles(subs)
  {
    hide TrimBlank, UniqueTitles, Titles;
    if subs != [] {
      var rest := TrimSubs(subs[1..]);
      assert subs == [subs[0]] + subs[1..] && [] + rest == rest;
      UniqueCons(subs[0], subs[1..]);
      UniqueCons(Sub(subs[0].title, TrimBlank(subs[0].lines)), rest);
      TrimKeepsUnique(subs[1..]);
    }
  }

  lemma NormalizeNoRepeats(s: Section)
    ensures NoRepeats(NormalizeSection(s))
  {
    hide IsUnreleased, UniqueTitles, TrimSubs;
    var subs := MergeSubs([], s.subs);
    NoTitles();
    MergeSubsUnique([], s.subs);
    UniquePermuted(subs, SortBy(TitleOrder, subs));
    TrimKeepsUnique(NormalizeSection(s).subs);
  }

  lemma NoTitles()
    ensures UniqueTitles([])
  {}

  lemma {:induction false} NormalizeAllNoRepeats(ss: seq<Section>)
    ensures AllNoRepeats(NormalizeSections(ss)) && SameHeadings(ss, NormalizeSections(ss))
  {
    hide NoRepeats, NormalizeSection;
    if ss != [] {
      NormalizeNoRepeats(ss[0]);
      NormalizeHeading(ss[0]);
      NormalizeAllNoRepeats(ss[1..]);
      var all := [NormalizeSection(ss[0])] + NormalizeSections(ss[1..]);
      forall i | 0 <= i < |ss| ensures NoRepeats(all[i]) && all[i].heading == ss[i].heading {
        if i > 0 {
          assert all[i] == NormalizeSections(ss[1..])[i - 1] && ss[i] == ss[1..][i - 1];
        }
      }
    }
  }

  lemma DropHeadings(ss: seq<Section>, historical: set<Lines>)
    ensures SameHeadings(ss, DropDuplicates(ss, historical))
  {
    hide DropSubs, ReleasedBullets;
  }

  lemma NumericMembers(a: seq<Section>, b: seq<Section>)
    requires NumericTitles(a) && forall s :: s in b ==> s in a
    ensures NumericTitles(b)
  {
    hide IsUnreleased, Numeric;
    forall i | 0 <= i < |b| && IsReleased(b[i]) ensures Numeric(b[i]) {
      assert b[i] in a;
    }
  }

  lemma NoRepeatsMembers(a: seq<Section>, b: seq<Section>)
    requires AllNoRepeats(a) && forall s :: s in b ==> s in a
    ensures AllNoRepeats(b)
  {
    hide NoRepeats;
    forall i | 0 <= i < |b| ensures NoRepeats(b[i]) {
      assert b[i] in a;
    }
  }

  /** After any pass no title is repeated, and the titles are those of before. */
  lemma PassRemovesRepeats(ss: seq<Section>, historical: set<Lines>)
    requires NumericTitles(ss)
    ensures AllNoRepeats(Pass(ss, historical)) && NumericTitles(Pass(ss, historical))
  {
    hide AllNoRepeats, NumericTitles, SortSections, DropDuplicates, NormalizeSections, SameHeadings;
    var dropped := DropDuplicates(ss, historical);
    var n := NormalizeSections(dropped);
    DropHeadings(ss, historical);
    NormalizeAllNoRepeats(dropped);
    SortMembers(n);
    NoRepeatsMembers(n, SortSections(n));
    HeadingsChain(ss, dropped, n);
    NumericSame(ss, n);
    NumericMembers(n, SortSections(n));
  }

  lemma HeadingsChain(a: seq<Section>, b: seq<Section>, c: seq<Section>)
    requires SameHeadings(a, b) && SameHeadings(b, c)
    ensures SameHeadings(c, a)
  {}

  /** Both conditions are about the document up to edge blank lines. */
  lemma TrimmedConditions(ss: seq<Section>)
    ensures AllNoRepeats(TrimSections(ss)) <==> AllNoRepeats(ss)
    ensures NumericTitles(TrimSections(ss)) <==> NumericTitles(ss)
  {
    hide Numeric, TrimBlank, UniqueTitles, TrimSubs, IsUnreleased;
    RenderTrimmedSections(ss);
    TrimmedCovers(ss);
    if NumericTitles(ss) { NumericSame(ss, TrimSections(ss)); }
    if NumericTitles(TrimSections(ss)) { NumericSame(TrimSections(ss), ss); }
    forall i | 0 <= i < |ss| ensures NoRepeats(TrimSections(ss)[i]) <==> NoRepeats(ss[i]) {
      TrimSectionsAt(ss, i);
      TrimSubsTwice(ss[i].subs);
    }
  }

  /** A third pass never changes the output of a second. */
  lemma ThirdPassChangesNothing(content: string, historical: set<Lines>)
    requires NumericTitles(Parse(content).sections)
    ensures var second := FixContent(FixContent(content, {}, historical), {}, historical);
      FixContent(second, {}, historical) == second
  {
    hide AllNoRepeats, NumericTitles, Parse, Render, Pass, Fix, TrimSections, Fixed, FixContent;
    var d := Parse(content);
    var e := Fix(d, {}, historical);
    var first := FixContent(content, {}, historical);
    FixWithoutPromotion(d, historical);
    PassRemovesRepeats(d.sections, historical);
    FixedTextReadsBack(content, {}, historical);
    TrimmedConditions(e.sections);
    TrimmedConditions(Parse(first).sections);
    SecondPassChangesNothing(first, historical);
  }
}
