/** No item is lost: one pass of the fixer keeps the set of items of a document
    (scripts/fix-changelogs.ts:218-232, 310-329, 531-580). */
module ChangelogItems {
  import opened Lists
  import opened Items
  import opened StableSort
  import opened ChangelogText
  import opened ChangelogDocument
  import opened ChangelogFix

  // ----------------------------------------------------------- sets of items

  lemma ToSetAppend(a: seq<Lines>, b: seq<Lines>)
    ensures ToSet(a + b) == ToSet(a) + ToSet(b)
  {}

  lemma {:induction false} SubsBulletsAppend(a: seq<Sub>, b: seq<Sub>)
    ensures SubsBullets(a + b) == SubsBullets(a) + SubsBullets(b)
  {
    hide Bullets;
    if a == [] {
      assert a + b == b;
    } else {
      assert (a + b)[1..] == a[1..] + b;
      SubsBulletsAppend(a[1..], b);
    }
  }

  lemma SubsBulletsOne(s: Sub)
    ensures SubsBullets([s]) == ToSet(Bullets(s.lines))
  {
    hide Bullets;
    assert [s][1..] == [];
  }

  lemma SubsBulletsAt(subs: seq<Sub>, k: nat)
    requires k < |subs|
    ensures SubsBullets(subs) == SubsBullets(subs[..k]) + ToSet(Bullets(subs[k].lines)) + SubsBullets(subs[k + 1..])
  {
    hide Bullets, SubsBullets;
    assert subs == subs[..k] + ([subs[k]] + subs[k + 1..]);
    SubsBulletsAppend(subs[..k], [subs[k]] + subs[k + 1..]);
    SubsBulletsAppend([subs[k]], subs[k + 1..]);
    SubsBulletsOne(subs[k]);
  }

  lemma SubsBulletsUpdate(subs: seq<Sub>, k: nat, s: Sub)
    requires k < |subs|
    ensures SubsBullets(subs[k := s]) == SubsBullets(subs[..k]) + ToSet(Bullets(s.lines)) + SubsBullets(subs[k + 1..])
  {
    hide Bullets, SubsBullets;
    var t := subs[k := s];
    SubsBulletsAt(t, k);
    assert t[..k] == subs[..k] && t[k + 1..] == subs[k + 1..];
  }

  lemma {:induction false} SubsBulletsMember(subs: seq<Sub>, b: Lines)
    ensures b in SubsBullets(subs) <==> exists s :: s in subs && b in Bullets(s.lines)
  {
    hide Bullets;
    if subs != [] {
      SubsBulletsMember(subs[1..], b);
      assert forall s :: s in subs <==> s == subs[0] || s in subs[1..];
    }
  }

  lemma SubsBulletsPermuted(a: seq<Sub>, b: seq<Sub>)
    requires multiset(a) == multiset(b)
    ensures SubsBullets(a) == SubsBullets(b)
  {
    hide SubsBullets;
    SameMembers(a, b);
    forall x ensures x in SubsBullets(a) <==> x in SubsBullets(b) {
      SubsBulletsMember(a, x);
      SubsBulletsMember(b, x);
    }
  }

  lemma {:induction false} SectionsBulletsMember(ss: seq<Section>, b: Lines)
    ensures b in SectionsBullets(ss) <==> exists s :: s in ss && b in SubsBullets(s.subs)
  {
    hide SubsBullets;
    if ss != [] {
      SectionsBulletsMember(ss[1..], b);
      assert forall s :: s in ss <==> s == ss[0] || s in ss[1..];
    }
  }

  lemma SectionsBulletsSame(a: seq<Section>, b: seq<Section>)
    requires forall s :: s in a <==> s in b
    ensures SectionsBullets(a) == SectionsBullets(b)
  {
    hide SectionsBullets, SubsBullets;
    forall x ensures x in SectionsBullets(a) <==> x in SectionsBullets(b) {
      SectionsBulletsMember(a, x);
      SectionsBulletsMember(b, x);
    }
  }

  lemma SectionsBulletsUpdate(ss: seq<Section>, k: nat, s: Section)
    requires k < |ss|
    ensures SectionsBullets(ss) == SectionsBullets(ss[..k] + ss[k + 1..]) + SubsBullets(ss[k].subs)
    ensures SectionsBullets(ss[k := s]) == SectionsBullets(ss[..k] + ss[k + 1..]) + SubsBullets(s.subs)
  {
    SectionsBulletsAt(ss, k);
    SectionsBulletsAt(ss[k := s], k);
    assert ss[k := s][..k] + ss[k := s][k + 1..] == ss[..k] + ss[k + 1..];
  }

  lemma {:induction false} SectionsBulletsAt(ss: seq<Section>, k: nat)
    requires k < |ss|
    ensures SectionsBullets(ss) == SectionsBullets(ss[..k] + ss[k + 1..]) + SubsBullets(ss[k].subs)
  {
    hide SubsBullets;
    if k == 0 {
      assert ss[..0] + ss[1..] == ss[1..];
    } else {
      SectionsBulletsAt(ss[1..], k - 1);
      var rest := ss[..k] + ss[k + 1..];
      assert rest[1..] == ss[1..][..k - 1] + ss[1..][k..];
    }
  }

  // ------------------------------------------------------- appending to a body

  /** The body is blank or starts with an item. */
  predicate StartsWithItem(ls: Lines) {
    TrimBlank(ls) == [] || IsBullet(TrimBlank(ls)[0])
  }

  lemma BulletsOfTrimmed(ls: Lines)
    ensures Bullets(TrimBlank(ls)) == Bullets(ls)
  {
    BulletsApart();
    ItemsOfTrim(IsBullet, IsBlank, ls);
  }

  lemma NoBullets()
    ensures Bullets([]) == []
  {
    NothingIsEvery(IsBullet);
    NoMarks(IsBullet, []);
  }

  /** Appending keeps the items of both bodies, unless the second one begins with text that
      falls under the last item of the first. */
  lemma AppendKeepsBullets(target: Lines, source: Lines)
    requires Bullets(target) == [] || StartsWithItem(source)
    ensures Bullets(AppendLines(target, source)) == Bullets(target) + Bullets(source)
  {
    hide Bullets, IsBullet, IsBlank, TrimBy;
    var more, existing := TrimBlank(source), TrimBlank(target);
    BulletsOfTrimmed(source);
    BulletsOfTrimmed(target);
    NoBullets();
    if more == [] {
    } else if existing == [] {
      assert [] + Bullets(source) == Bullets(source);
    } else {
      var sep := if IsBullet(existing[|existing| - 1]) && IsBullet(more[0]) then [] else [""];
      AppendItems(existing, sep, more);
    }
  }

  lemma AppendItems(existing: Lines, sep: Lines, more: Lines)
    requires sep == [] || sep == [""]
    requires more != [] && (Bullets(existing) == [] || IsBullet(more[0]))
    ensures Bullets(existing + sep + more) == Bullets(existing) + Bullets(more)
  {
    BulletsApart();
    BlankLines();
    NothingIsBlank();
    if Bullets(existing) != [] {
      HeadMarked(IsBullet, more);
    }
    ItemsOfJoin(IsBullet, IsBlank, existing, sep, more);
  }

  lemma CompactKeepsBullets(ls: Lines)
    ensures Bullets(CompactLines(ls)) == Bullets(ls)
  {
    BulletsApart();
    CompactItems(IsBullet, IsBlank, ls);
  }

  lemma CompactKeepsStart(ls: Lines)
    ensures CompactLines(ls) == [] <==> TrimBlank(ls) == []
    ensures StartsWithItem(CompactLines(ls)) <==> StartsWithItem(ls)
    ensures TrimBlank(CompactLines(ls)) == CompactLines(ls)
  {
    hide IsBullet, IsBlank, TrimBy, Compact;
    BulletsApart();
    CompactShape(IsBullet, IsBlank, ls);
    TrimFixed(IsBlank, CompactLines(ls));
  }

  lemma AppendStarts(target: Lines, source: Lines)
    requires StartsWithItem(target) && TrimBlank(target) != []
    ensures StartsWithItem(AppendLines(target, source))
  {
    hide IsBullet, IsBlank, TrimBy;
    AppendTrimmed(target, source);
  }

  /** What appending leaves is the first body, edges trimmed, then the second. */
  lemma AppendTrimmed(target: Lines, source: Lines)
    ensures TrimBlank(AppendLines(target, source)) == [] <==> TrimBlank(target) == [] && TrimBlank(source) == []
    ensures TrimBlank(source) != [] ==> TrimBlank(AppendLines(target, source)) == AppendLines(target, source)
    ensures TrimBlank(target) != [] ==> TrimBlank(AppendLines(target, source))[0] == TrimBlank(target)[0]
    ensures TrimBlank(target) == [] && TrimBlank(source) != [] ==> TrimBlank(AppendLines(target, source)) == TrimBlank(source)
  {
    hide IsBullet, IsBlank, TrimBy;
    TrimIsTrimmed(IsBlank, source);
    TrimIsTrimmed(IsBlank, target);
    if TrimBlank(source) != [] {
      TrimFixed(IsBlank, AppendLines(target, source));
    }
  }

  // ---------------------------------------------------------------- merging

  /** Wherever a title is repeated after a body with items, the later body is blank or starts
      with an item. */
  ghost predicate MergeOk(subs: seq<Sub>) {
    forall i, j :: 0 <= i < j < |subs| && subs[i].title == subs[j].title ==> Bullets(subs[i].lines) == [] || StartsWithItem(subs[j].lines)
  }

  ghost predicate AllMergeOk(ss: seq<Section>) {
    forall i :: 0 <= i < |ss| ==> MergeOk(ss[i].subs)
  }

  lemma MergePair(acc: seq<Sub>, s: Sub, rest: seq<Sub>, k: nat)
    requires k < |acc| && acc[k].title == s.title && MergeOk(acc + [s] + rest)
    ensures Bullets(acc[k].lines) == [] || StartsWithItem(s.lines)
  {
    hide Bullets, StartsWithItem;
    var all := acc + [s] + rest;
    assert all[k] == acc[k] && all[|acc|] == s;
  }

  ghost predicate Filled(subs: seq<Sub>) {
    forall i :: 0 <= i < |subs| ==> TrimBlank(subs[i].lines) != []
  }

  ghost predicate UniqueTitles(subs: seq<Sub>) {
    forall i, j :: 0 <= i < j < |subs| ==> subs[i].title != subs[j].title
  }

  lemma MergeKeepsFilled(acc: seq<Sub>, s: Sub)
    requires Filled(acc)
    ensures Filled(MergeSub(acc, s))
  {
    hide AppendLines, CompactLines, TrimBlank, Find;
    var lines, k := CompactLines(s.lines), Find(acc, s.title);
    CompactKeepsStart(s.lines);
    if k < |acc| {
      AppendTrimmed(acc[k].lines, lines);
    }
  }

  lemma MergeKeepsUnique(acc: seq<Sub>, s: Sub)
    requires UniqueTitles(acc)
    ensures UniqueTitles(MergeSub(acc, s))
  {
    hide AppendLines, CompactLines, TrimBlank, Find;
  }

  /** Merging one subsection leaves the rest mergeable. */
  lemma MergeKeepsOk(acc: seq<Sub>, s: Sub, rest: seq<Sub>)
    requires MergeOk(acc + [s] + rest) && Filled(acc) && UniqueTitles(acc)
    ensures MergeOk(MergeSub(acc, s) + rest)
  {
    hide Bullets, StartsWithItem, AppendLines, CompactLines, Find, TrimBlank, IsBullet;
    var lines, k, all := CompactLines(s.lines), Find(acc, s.title), acc + [s] + rest;
    CompactKeepsBullets(s.lines);
    CompactKeepsStart(s.lines);
    if lines == [] {
      MergeOkWithout(acc, s, rest);
    } else if k < |acc| {
      MergePair(acc, s, rest, k);
      AppendKeepsBullets(acc[k].lines, lines);
      assert StartsWithItem(acc[k].lines) ==> StartsWithItem(AppendLines(acc[k].lines, lines)) by {
        if StartsWithItem(acc[k].lines) {
          AppendStarts(acc[k].lines, lines);
        }
      }
      MergeOkMerged(acc, s, rest, k, Sub(s.title, AppendLines(acc[k].lines, lines)));
    } else {
      MergeOkReplaced(acc, s, rest, Sub(s.title, lines));
    }
  }

  lemma MergeOkWithout(acc: seq<Sub>, s: Sub, rest: seq<Sub>)
    requires MergeOk(acc + [s] + rest)
    ensures MergeOk(acc + rest)
  {
    hide Bullets, StartsWithItem;
    var all, after := acc + [s] + rest, acc + rest;
    forall i, j | 0 <= i < j < |after| && after[i].title == after[j].title
      ensures Bullets(after[i].lines) == [] || StartsWithItem(after[j].lines)
    {
      var p, q := if i < |acc| then i else i + 1, if j < |acc| then j else j + 1;
      assert all[p] == after[i] && all[q] == after[j];
    }
  }

  lemma MergeOkReplaced(acc: seq<Sub>, s: Sub, rest: seq<Sub>, t: Sub)
    requires MergeOk(acc + [s] + rest)
    requires t.title == s.title && Bullets(t.lines) == Bullets(s.lines) && (StartsWithItem(t.lines) <==> StartsWithItem(s.lines))
    ensures MergeOk(acc + [t] + rest)
  {
    hide Bullets, StartsWithItem;
    var all, after := acc + [s] + rest, acc + [t] + rest;
    forall i, j | 0 <= i < j < |after| && after[i].title == after[j].title
      ensures Bullets(after[i].lines) == [] || StartsWithItem(after[j].lines)
    {
      assert all[i] == (if i == |acc| then s else after[i]) && all[j] == (if j == |acc| then s else after[j]);
    }
  }

  lemma MergeOkMerged(acc: seq<Sub>, s: Sub, rest: seq<Sub>, k: nat, t: Sub)
    requires MergeOk(acc + [s] + rest) && k < |acc| && UniqueTitles(acc)
    requires t.title == s.title == acc[k].title && Bullets(t.lines) == Bullets(acc[k].lines) + Bullets(s.lines)
    requires StartsWithItem(acc[k].lines) ==> StartsWithItem(t.lines)
    ensures MergeOk(acc[k := t] + rest)
  {
    hide Bullets, StartsWithItem;
    var all, after := acc + [s] + rest, acc[k := t] + rest;
    forall i, j | 0 <= i < j < |after| && after[i].title == after[j].title
      ensures Bullets(after[i].lines) == [] || StartsWithItem(after[j].lines)
    {
      assert j >= |acc|;
      var p := if i < |acc| then i else i + 1;
      assert all[p] == (if i == k then acc[k] else after[i]) && all[j + 1] == after[j] && all[|acc|] == s;
    }
  }

  /** The items of merged subsections are those of the subsections. */
  lemma {:induction false} MergeSubsKeepsBullets(acc: seq<Sub>, subs: seq<Sub>)
    requires MergeOk(acc + subs) && Filled(acc) && UniqueTitles(acc)
    ensures SubsBullets(MergeSubs(acc, subs)) == SubsBullets(acc) + SubsBullets(subs)
    ensures Filled(MergeSubs(acc, subs)) && UniqueTitles(MergeSubs(acc, subs))
    decreases |subs|
  {
    hide MergeSub, MergeOk, Filled, UniqueTitles, Bullets;
    if subs != [] {
      var s, rest := subs[0], subs[1..];
      assert acc + subs == acc + [s] + rest;
      MergeKeepsFilled(acc, s);
      MergeKeepsUnique(acc, s);
      MergeKeepsOk(acc, s, rest);
      MergeOneKeepsBullets(acc, s, rest);
      MergeSubsKeepsBullets(MergeSub(acc, s), rest);
    }
  }

  lemma MergeOneKeepsBullets(acc: seq<Sub>, s: Sub, rest: seq<Sub>)
    requires MergeOk(acc + [s] + rest)
    ensures SubsBullets(MergeSub(acc, s)) == SubsBullets(acc) + ToSet(Bullets(s.lines))
  {
    hide Bullets, StartsWithItem, AppendLines, CompactLines, Find, TrimBlank, IsBullet, SubsBullets, MergeOk;
    var lines, k := CompactLines(s.lines), Find(acc, s.title);
    CompactKeepsBullets(s.lines);
    CompactKeepsStart(s.lines);
    NoBullets();
    if lines == [] {
      assert ToSet([]) == {};
    } else if k < |acc| {
      MergePair(acc, s, rest, k);
      AppendKeepsBullets(acc[k].lines, lines);
      ToSetAppend(Bullets(acc[k].lines), Bullets(lines));
      SubsBulletsAt(acc, k);
      SubsBulletsUpdate(acc, k, Sub(s.title, AppendLines(acc[k].lines, lines)));
    } else {
      SubsBulletsAppend(acc, [Sub(s.title, lines)]);
      SubsBulletsOne(Sub(s.title, lines));
    }
  }

  lemma NormalizeKeepsBullets(s: Section)
    requires MergeOk(s.subs)
    ensures SubsBullets(NormalizeSection(s).subs) == SubsBullets(s.subs)
  {
    hide MergeSubs, MergeOk, Bullets;
    assert [] + s.subs == s.subs;
    MergeSubsKeepsBullets([], s.subs);
    SubsBulletsPermuted(MergeSubs([], s.subs), SortBy(TitleOrder, MergeSubs([], s.subs)));
  }

  lemma {:induction false} NormalizeSectionsKeepsBullets(ss: seq<Section>)
    requires AllMergeOk(ss)
    ensures SectionsBullets(NormalizeSections(ss)) == SectionsBullets(ss)
  {
    hide MergeOk, SubsBullets, NormalizeSection;
    if ss != [] {
      assert MergeOk(ss[0].subs);
      NormalizeKeepsBullets(ss[0]);
      NormalizeSectionsKeepsBullets(ss[1..]);
      assert ([NormalizeSection(ss[0])] + NormalizeSections(ss[1..]))[1..] == NormalizeSections(ss[1..]);
    }
  }

  lemma SortKeepsBullets(ss: seq<Section>)
    ensures SectionsBullets(SortSections(ss)) == SectionsBullets(ss)
  {
    hide SectionsBullets, IsUnreleased;
    SameMembers(SortBy(CompareSections, Filter(IsReleased, ss)), Filter(IsReleased, ss));
    SectionsBulletsSame(SortSections(ss), ss);
  }

  // ------------------------------------------------------- dropping duplicates

  lemma BulletsFromParts(pre: Lines, cs: seq<Lines>)
    requires Lacks(IsBullet, pre) && AreChunks(IsBullet, cs)
    ensures Bullets(pre + Flatten(cs)) == TrimEach(IsBlank, cs)
    ensures Preamble(IsBullet, pre + Flatten(cs)) == pre
  {
    CutIs(IsBullet, pre, cs);
  }

  /** The items that some chunks trim to. */
  function Keys(cs: seq<Lines>): set<Lines> {
    ToSet(TrimEach(IsBlank, cs))
  }

  lemma KeysCons(c: Lines, cs: seq<Lines>)
    ensures Keys([c] + cs) == {TrimBlank(c)} + Keys(cs)
  {
    hide TrimBy;
    assert TrimEach(IsBlank, [c] + cs) == [TrimBlank(c)] + TrimEach(IsBlank, cs);
  }

  lemma ChunksCons(c: Lines, cs: seq<Lines>)
    requires AreChunks(IsBullet, [c] + cs)
    ensures IsChunk(IsBullet, c) && AreChunks(IsBullet, cs)
  {
    hide IsChunk;
    var all := [c] + cs;
    assert all[0] == c;
    forall i | 0 <= i < |cs| ensures IsChunk(IsBullet, cs[i]) {
      assert all[i + 1] == cs[i];
    }
  }

  lemma ConsChunks(c: Lines, cs: seq<Lines>)
    requires IsChunk(IsBullet, c) && AreChunks(IsBullet, cs)
    ensures AreChunks(IsBullet, [c] + cs)
  {
    hide IsChunk;
  }

  lemma {:induction false} KeepChunksAre(cs: seq<Lines>, keys: set<Lines>)
    requires AreChunks(IsBullet, cs)
    ensures AreChunks(IsBullet, KeepChunks(cs, keys)) && Keys(KeepChunks(cs, keys)) == Keys(cs) - keys
    ensures cs == [] ==> KeepChunks(cs, keys) == []
  {
    hide IsChunk, AreChunks, TrimBlank, Keys;
    if cs == [] {
      NoKeys();
    } else {
      assert cs == [cs[0]] + cs[1..];
      ChunksCons(cs[0], cs[1..]);
      KeepChunksAre(cs[1..], keys);
      KeysCons(cs[0], cs[1..]);
      KeysCons(cs[0], KeepChunks(cs[1..], keys));
      ConsChunks(cs[0], KeepChunks(cs[1..], keys));
      assert [] + KeepChunks(cs[1..], keys) == KeepChunks(cs[1..], keys);
    }
  }

  lemma NoKeys()
    ensures Keys([]) == {} && AreChunks(IsBullet, [])
  {}

  /** Dropping items takes away exactly those in `keys` and leaves the text above them. */
  lemma DropItemsIs(ls: Lines, keys: set<Lines>)
    ensures ToSet(Bullets(DropItems(ls, keys))) == ToSet(Bullets(ls)) - keys
    ensures Preamble(IsBullet, DropItems(ls, keys)) == Preamble(IsBullet, ls)
    ensures Bullets(ls) == [] ==> Bullets(DropItems(ls, keys)) == []
  {
    hide Lacks, AreChunks, IsBullet, TrimBy;
    CutParts(IsBullet, ls);
    KeepChunksAre(Cut(IsBullet, ls), keys);
    BulletsFromParts(Preamble(IsBullet, ls), KeepChunks(Cut(IsBullet, ls), keys));
    BulletsFromParts(Preamble(IsBullet, ls), Cut(IsBullet, ls));
  }

  lemma {:induction false} DropSubsBullets(subs: seq<Sub>, keys: set<Lines>)
    ensures SubsBullets(DropSubs(subs, keys)) == SubsBullets(subs) - keys
  {
    hide Bullets, DropItems;
    if subs != [] {
      DropItemsIs(subs[0].lines, keys);
      DropSubsBullets(subs[1..], keys);
      var s := Sub(subs[0].title, DropItems(subs[0].lines, keys));
      assert ([s] + DropSubs(subs[1..], keys))[1..] == DropSubs(subs[1..], keys);
    }
  }

  // ------------------------------------------- what a shrinking body keeps true

  lemma StartsIff(ls: Lines)
    ensures StartsWithItem(ls) <==> Every(IsBlank, Preamble(IsBullet, ls))
  {
    hide IsBullet, IsBlank, TrimBy, Every, Lacks;
    BulletsApart();
    var pre, rest := Preamble(IsBullet, ls), ls[Ahead(IsBullet, ls)..];
    assert ls == pre + rest;
    if Every(IsBlank, pre) {
      NothingIsBlank();
      TrimCore(IsBlank, pre, rest, []);
      assert pre + rest + [] == ls;
      if rest == [] {
        assert TrimBlank(rest) == [] by { TrimEmpty(IsBlank, rest); }
      } else {
        HeadVisible(rest);
        TrimKeepsHead(IsBlank, rest);
      }
    } else if StartsWithItem(ls) {
      StartsOnly(ls);
    }
  }

  lemma HeadVisible(ls: Lines)
    requires ls != [] && IsBullet(ls[0])
    ensures !IsBlank(ls[0])
  {
    BulletVisible(ls[0]);
  }

  lemma StartsOnly(ls: Lines)
    requires StartsWithItem(ls)
    ensures Every(IsBlank, Preamble(IsBullet, ls))
  {
    hide IsBullet, IsBlank, TrimBy;
    BulletsApart();
    var a, b := TrimBounds(IsBlank, ls);
    if a == b {
      TrimEmpty(IsBlank, ls);
    } else {
      EveryLacks(IsBullet, IsBlank, ls[..a]);
      AheadIs(IsBullet, ls[..a], ls[a..]);
      assert ls == ls[..a] + ls[a..];
    }
  }

  /** `b` has the titles of `a`, with no text or items added to a body. */
  ghost predicate Shrinks(a: seq<Sub>, b: seq<Sub>) {
    |a| == |b| && forall i :: 0 <= i < |a| ==> ShrinksTo(a[i], b[i])
  }

  ghost predicate ShrinksTo(a: Sub, b: Sub) {
    a.title == b.title && (Bullets(a.lines) == [] ==> Bullets(b.lines) == []) && (StartsWithItem(a.lines) ==> StartsWithItem(b.lines))
  }

  lemma ShrinkKeepsMergeOk(a: seq<Sub>, b: seq<Sub>)
    requires MergeOk(a) && Shrinks(a, b)
    ensures MergeOk(b)
  {
    hide Bullets, StartsWithItem;
    forall i, j | 0 <= i < j < |b| && b[i].title == b[j].title
      ensures Bullets(b[i].lines) == [] || StartsWithItem(b[j].lines)
    {
      assert ShrinksTo(a[i], b[i]) && ShrinksTo(a[j], b[j]);
    }
  }

  lemma ShrinksCons(s: Sub, t: Sub, a: seq<Sub>, b: seq<Sub>)
    requires ShrinksTo(s, t) && Shrinks(a, b)
    ensures Shrinks([s] + a, [t] + b)
  {
    hide ShrinksTo;
  }

  lemma {:induction false} DropSubsShrinks(subs: seq<Sub>, keys: set<Lines>)
    ensures Shrinks(subs, DropSubs(subs, keys))
  {
    hide Bullets, DropItems, StartsWithItem, Preamble, Every;
    if subs != [] {
      var t := Sub(subs[0].title, DropItems(subs[0].lines, keys));
      DropItemsIs(subs[0].lines, keys);
      StartsIff(subs[0].lines);
      StartsIff(t.lines);
      DropSubsShrinks(subs[1..], keys);
      ShrinksCons(subs[0], t, subs[1..], DropSubs(subs[1..], keys));
      assert [subs[0]] + subs[1..] == subs;
    }
  }

  lemma FirstUnreleasedIs(ss: seq<Section>)
    ensures var k := FirstUnreleased(ss); k < |ss| ==> IsUnreleased(ss[k])
  {
    hide IsUnreleased;
  }

  lemma InReleased(ss: seq<Section>, b: Lines)
    ensures b in ReleasedBullets(ss) <==> exists s :: s in ss && IsReleased(s) && b in SubsBullets(s.subs)
  {
    hide SubsBullets, IsReleased;
    SectionsBulletsMember(Filter(IsReleased, ss), b);
  }

  /** Dropping the duplicates of released items loses no item: a released copy stays. */
  lemma DropKeepsBullets(ss: seq<Section>)
    requires AllMergeOk(ss)
    ensures SectionsBullets(DropDuplicates(ss, {})) == SectionsBullets(ss) && AllMergeOk(DropDuplicates(ss, {}))
  {
    hide SectionsBullets, SubsBullets, DropSubs, MergeOk, ReleasedBullets, Section.Title;
    var k := FirstUnreleased(ss);
    if k < |ss| {
      FirstUnreleasedIs(ss);
      var keys := ReleasedBullets(ss) + {};
      var s := ss[k].(subs := DropSubs(ss[k].subs, keys));
      DropSubsBullets(ss[k].subs, keys);
      SectionsBulletsUpdate(ss, k, s);
      forall b | b in keys ensures b in SectionsBullets(ss[..k] + ss[k + 1..]) {
        InReleased(ss, b);
        ReleasedElsewhere(ss, k, b);
      }
      DropSubsShrinks(ss[k].subs, keys);
      assert MergeOk(ss[k].subs);
      ShrinkKeepsMergeOk(ss[k].subs, s.subs);
    }
  }

  lemma ReleasedElsewhere(ss: seq<Section>, k: nat, b: Lines)
    requires k < |ss| && IsUnreleased(ss[k]) && exists s :: s in ss && IsReleased(s) && b in SubsBullets(s.subs)
    ensures b in SectionsBullets(ss[..k] + ss[k + 1..])
  {
    hide SectionsBullets, SubsBullets, Section.Title;
    var s :| s in ss && IsReleased(s) && b in SubsBullets(s.subs);
    var i :| 0 <= i < |ss| && ss[i] == s;
    var rest := ss[..k] + ss[k + 1..];
    assert rest[if i < k then i else i - 1] == s;
    SectionsBulletsMember(rest, b);
  }

  // ---------------------------------------------------------------- promotion

  /** A trimmed item, as promotion moves it. */
  ghost predicate IsItem(b: Lines) {
    IsChunk(IsBullet, b) && Trimmed(IsBlank, b)
  }

  ghost predicate AreItems(bs: seq<Lines>) {
    forall i :: 0 <= i < |bs| ==> IsItem(bs[i])
  }

  lemma ItemFacts(b: Lines)
    requires IsItem(b)
    ensures Bullets(b) == [b] && StartsWithItem(b) && TrimBlank(b) == b != []
  {
    hide IsBullet, IsBlank, TrimBy;
    TrimFixed(IsBlank, b);
    assert Flatten([b]) == b && [] + b == b;
    NothingIsEvery(IsBullet);
    BulletsFromParts([], [b]);
    assert TrimEach(IsBlank, [b]) == [b];
  }

  lemma {:induction false} MovedAndKept(cs: seq<Lines>, line: nat, promotable: set<nat>)
    requires AreChunks(IsBullet, cs)
    ensures AreChunks(IsBullet, Kept(cs, line, promotable)) && AreItems(Moved(cs, line, promotable))
    ensures Keys(Kept(cs, line, promotable)) + ToSet(Moved(cs, line, promotable)) == Keys(cs)
    ensures cs == [] ==> Kept(cs, line, promotable) == []
    decreases |cs|
  {
    hide IsChunk, AreChunks, TrimBlank, Keys, IsItem;
    if cs == [] {
      NoKeys();
    } else {
      var kept, moved := Kept(cs[1..], line + |cs[0]|, promotable), Moved(cs[1..], line + |cs[0]|, promotable);
      assert cs == [cs[0]] + cs[1..];
      ChunksCons(cs[0], cs[1..]);
      MovedAndKept(cs[1..], line + |cs[0]|, promotable);
      KeysCons(cs[0], cs[1..]);
      if line in promotable {
        ChunkItem(cs[0]);
        ToSetAppend([TrimBlank(cs[0])], moved);
        assert [] + kept == kept;
      } else {
        KeysCons(cs[0], kept);
        ConsChunks(cs[0], kept);
        assert [] + moved == moved;
      }
    }
  }

  lemma ChunkItem(c: Lines)
    requires IsChunk(IsBullet, c)
    ensures IsItem(TrimBlank(c)) && ToSet([TrimBlank(c)]) == {TrimBlank(c)}
  {
    BulletsApart();
    TrimChunk(IsBullet, IsBlank, c);
  }

  lemma {:induction false} AddItemsIs(ls: Lines, items: seq<Lines>)
    requires AreItems(items)
    ensures ToSet(Bullets(AddItems(ls, items))) == ToSet(Bullets(ls)) + ToSet(items)
    ensures StartsWithItem(ls) ==> StartsWithItem(AddItems(ls, items))
    decreases |items|
  {
    hide Bullets, StartsWithItem, AppendLines, IsItem, ToSet;
    if items == [] {
      assert ToSet(items) == {};
    } else {
      assert IsItem(items[0]);
      AddItemIs(ls, items[0]);
      AddItemsIs(if items[0] in Bullets(ls) then ls else AppendLines(ls, items[0]), items[1..]);
      ToSetAppend([items[0]], items[1..]);
      assert items == [items[0]] + items[1..];
    }
  }

  lemma AddItemIs(ls: Lines, item: Lines)
    requires IsItem(item)
    ensures var next := if item in Bullets(ls) then ls else AppendLines(ls, item);
      ToSet(Bullets(next)) == ToSet(Bullets(ls)) + ToSet([item]) && (StartsWithItem(ls) ==> StartsWithItem(next))
  {
    hide Bullets, StartsWithItem, AppendLines, IsItem, IsBullet, TrimBlank;
    ItemFacts(item);
    if item !in Bullets(ls) {
      AppendKeepsBullets(ls, item);
      ToSetAppend(Bullets(ls), [item]);
      AppendItemStarts(ls, item);
    }
  }

  lemma AppendItemStarts(ls: Lines, item: Lines)
    requires StartsWithItem(item)
    ensures StartsWithItem(ls) ==> StartsWithItem(AppendLines(ls, item))
  {
    hide AppendLines, TrimBlank, IsBullet;
    AppendTrimmed(ls, item);
  }

  lemma AddToSectionKeeps(u: Section, title: string, items: seq<Lines>)
    requires AreItems(items) && MergeOk(u.subs)
    ensures SubsBullets(AddToSection(u, title, items).subs) == SubsBullets(u.subs) + ToSet(items)
    ensures MergeOk(AddToSection(u, title, items).subs)
  {
    hide Bullets, StartsWithItem, SubsBullets, AreItems, AddItems;
    var k := FindLast(u.subs, title);
    if items == [] {
      assert ToSet(items) == {};
    } else if k < |u.subs| {
      AddItemsIs(u.subs[k].lines, items);
      SubsBulletsAt(u.subs, k);
      SubsBulletsUpdate(u.subs, k, Sub(title, AddItems(u.subs[k].lines, items)));
    } else {
      AddItemsIs([], items);
      NoBullets();
      NothingStarts();
      SubsBulletsAppend(u.subs, [Sub(title, AddItems([], items))]);
      SubsBulletsOne(Sub(title, AddItems([], items)));
    }
  }

  lemma NothingStarts()
    ensures StartsWithItem([])
  {}

  lemma PromoteOne(ls: Lines, first: nat, promotable: set<nat>, rest: Lines)
    requires rest == Preamble(IsBullet, ls) + Flatten(Kept(Cut(IsBullet, ls), first, promotable))
    ensures ToSet(Bullets(rest)) + ToSet(Moved(Cut(IsBullet, ls), first, promotable)) == ToSet(Bullets(ls))
    ensures Bullets(ls) == [] ==> Bullets(rest) == []
    ensures StartsWithItem(ls) ==> StartsWithItem(rest)
    ensures AreItems(Moved(Cut(IsBullet, ls), first, promotable))
  {
    hide Lacks, AreChunks, IsBullet, TrimBy, StartsWithItem, AreItems;
    CutParts(IsBullet, ls);
    MovedAndKept(Cut(IsBullet, ls), first, promotable);
    BulletsFromParts(Preamble(IsBullet, ls), Kept(Cut(IsBullet, ls), first, promotable));
    BulletsFromParts(Preamble(IsBullet, ls), Cut(IsBullet, ls));
    StartsIff(ls);
    StartsIff(rest);
  }

  ghost predicate SubsPromoted(u: Section, subs: seq<Sub>, u2: Section, rest: seq<Sub>) {
    && SubsBullets(u2.subs) + SubsBullets(rest) == SubsBullets(u.subs) + SubsBullets(subs)
    && SubsBullets(u.subs) <= SubsBullets(u2.subs)
    && MergeOk(u2.subs) && Shrinks(subs, rest)
  }

  lemma SubsBulletsCons(s: Sub, subs: seq<Sub>)
    ensures SubsBullets([s] + subs) == ToSet(Bullets(s.lines)) + SubsBullets(subs)
  {
    hide Bullets;
    assert ([s] + subs)[1..] == subs;
  }

  lemma SubsPromotedCons(u: Section, subs: seq<Sub>, s: Sub, u1: Section, u2: Section, rest: seq<Sub>)
    requires subs != [] && SubsPromoted(u1, subs[1..], u2, rest) && ShrinksTo(subs[0], s)
    requires SubsBullets(u.subs) <= SubsBullets(u1.subs)
    requires SubsBullets(u1.subs) + ToSet(Bullets(s.lines)) == SubsBullets(u.subs) + ToSet(Bullets(subs[0].lines))
    ensures SubsPromoted(u, subs, u2, [s] + rest)
  {
    hide Bullets, SubsBullets, MergeOk, ShrinksTo, Shrinks, ToSet;
    SubsBulletsCons(s, rest);
    SubsBulletsCons(subs[0], subs[1..]);
    ShrinksCons(subs[0], s, subs[1..], rest);
    assert [subs[0]] + subs[1..] == subs;
  }

  lemma {:induction false} PromoteSubsKeeps(u: Section, subs: seq<Sub>, line: nat, promotable: set<nat>)
    requires MergeOk(u.subs)
    ensures var (u2, rest) := PromoteSubs(u, subs, line, promotable); SubsPromoted(u, subs, u2, rest)
    decreases |subs|
  {
    hide Bullets, StartsWithItem, AddToSection, Kept, Moved, MergeOk, AreItems, Preamble, Cut, SubsPromoted, SubsBullets;
    if subs == [] {
      SubsPromotedNothing(u);
    } else {
      var ls := subs[0].lines;
      var first := line + 1 + |Preamble(IsBullet, ls)|;
      var cs := Cut(IsBullet, ls);
      var moved := Moved(cs, first, promotable);
      var s := Sub(subs[0].title, Preamble(IsBullet, ls) + Flatten(Kept(cs, first, promotable)));
      PromoteOne(ls, first, promotable, s.lines);
      AddToSectionKeeps(u, subs[0].title, moved);
      var u1 := AddToSection(u, subs[0].title, moved);
      PromoteSubsKeeps(u1, subs[1..], line + 1 + |ls|, promotable);
      var (u2, rest) := PromoteSubs(u1, subs[1..], line + 1 + |ls|, promotable);
      SubsPromotedCons(u, subs, s, u1, u2, rest);
    }
  }

  lemma SubsPromotedNothing(u: Section)
    requires MergeOk(u.subs)
    ensures SubsPromoted(u, [], u, [])
  {}

  ghost predicate Promoted(u: Section, ss: seq<Section>, u2: Section, rest: seq<Section>) {
    && SubsBullets(u2.subs) + SectionsBullets(rest) == SubsBullets(u.subs) + SectionsBullets(ss)
    && SubsBullets(u.subs) <= SubsBullets(u2.subs)
    && MergeOk(u2.subs) && AllMergeOk(rest) && |rest| == |ss|
    && forall i :: 0 <= i < |ss| && IsUnreleased(ss[i]) ==> rest[i] == ss[i]
  }

  lemma {:induction false} PromoteSectionsKeeps(u: Section, ss: seq<Section>, heights: seq<nat>, line: nat, promotable: set<nat>)
    requires |heights| == |ss| && AllMergeOk(ss) && MergeOk(u.subs)
    ensures var (u2, rest) := PromoteSections(u, ss, heights, line, promotable); Promoted(u, ss, u2, rest)
    decreases |ss|
  {
    hide SubsBullets, MergeOk, IsUnreleased, PromoteSubs, Shrinks, SectionsBullets, AllMergeOk, Promoted;
    if ss == [] {
      PromotedNothing(u);
    } else {
      AllMergeOkParts(ss);
      var (u1, subs) := if IsUnreleased(ss[0]) then (u, ss[0].subs) else PromoteSubs(u, ss[0].subs, line + 1 + |ss[0].leading|, promotable);
      var s := ss[0].(subs := subs);
      if !IsUnreleased(ss[0]) {
        PromoteSubsKeeps(u, ss[0].subs, line + 1 + |ss[0].leading|, promotable);
        ShrinkKeepsMergeOk(ss[0].subs, subs);
      }
      PromoteSectionsKeeps(u1, ss[1..], heights[1..], line + heights[0], promotable);
      var (u2, rest) := PromoteSections(u1, ss[1..], heights[1..], line + heights[0], promotable);
      PromotedCons(u, ss, s, u1, u2, rest);
    }
  }

  lemma PromotedNothing(u: Section)
    requires MergeOk(u.subs)
    ensures Promoted(u, [], u, [])
  {}

  lemma AllMergeOkParts(ss: seq<Section>)
    requires AllMergeOk(ss) && ss != []
    ensures MergeOk(ss[0].subs) && AllMergeOk(ss[1..])
  {}

  lemma SectionsBulletsCons(s: Section, ss: seq<Section>)
    ensures SectionsBullets([s] + ss) == SubsBullets(s.subs) + SectionsBullets(ss)
  {
    assert ([s] + ss)[1..] == ss;
  }

  lemma PromotedCons(u: Section, ss: seq<Section>, s: Section, u1: Section, u2: Section, rest: seq<Section>)
    requires ss != [] && Promoted(u1, ss[1..], u2, rest) && MergeOk(s.subs)
    requires SubsBullets(u1.subs) + SubsBullets(s.subs) == SubsBullets(u.subs) + SubsBullets(ss[0].subs)
    requires SubsBullets(u.subs) <= SubsBullets(u1.subs)
    requires IsUnreleased(ss[0]) ==> s == ss[0]
    ensures Promoted(u, ss, u2, [s] + rest)
  {
    hide SubsBullets, MergeOk, IsUnreleased, SectionsBullets;
    SectionsBulletsCons(s, rest);
    SectionsBulletsCons(ss[0], ss[1..]);
    assert [ss[0]] + ss[1..] == ss;
    var all := [s] + rest;
    forall i | 0 <= i < |ss| && IsUnreleased(ss[i]) ensures all[i] == ss[i] {
      if i > 0 {
        assert ss[1..][i - 1] == ss[i];
      }
    }
    forall i | 0 <= i < |all| ensures MergeOk(all[i].subs) {}
  }

  /** Promotion loses no item and adds none. */
  lemma PromoteKeepsBullets(ss: seq<Section>, heights: seq<nat>, line: nat, promotable: set<nat>)
    requires |heights| == |ss| && AllMergeOk(ss)
    ensures SectionsBullets(Promote(ss, heights, line, promotable)) == SectionsBullets(ss)
    ensures AllMergeOk(Promote(ss, heights, line, promotable))
  {
    hide MergeOk, IsUnreleased, SectionsBullets, PromoteSections, Promoted;
    var k := FirstUnreleased(ss);
    FirstUnreleasedIs(ss);
    var start := if k < |ss| then ss[k] else NO_UNRELEASED;
    NothingToMerge();
    PromoteSectionsKeeps(start, ss, heights, line, promotable);
    var (u, rest) := PromoteSections(start, ss, heights, line, promotable);
    if k < |ss| {
      PromotedInPlace(ss, k, u, rest);
    } else {
      PromotedInFront(ss, u, rest);
    }
  }

  lemma PromotedInPlace(ss: seq<Section>, k: nat, u: Section, rest: seq<Section>)
    requires k < |ss| && IsUnreleased(ss[k]) && Promoted(ss[k], ss, u, rest)
    ensures SectionsBullets(rest[k := u]) == SectionsBullets(ss) && AllMergeOk(rest[k := u])
  {
    hide SubsBullets, MergeOk, IsUnreleased, SectionsBullets;
    SectionsBulletsUpdate(rest, k, u);
    SectionsBulletsUpdate(ss, k, ss[k]);
  }

  lemma PromotedInFront(ss: seq<Section>, u: Section, rest: seq<Section>)
    requires Promoted(NO_UNRELEASED, ss, u, rest)
    ensures SectionsBullets([u] + rest) == SectionsBullets(ss) && AllMergeOk([u] + rest)
    ensures u == NO_UNRELEASED ==> SectionsBullets(rest) == SectionsBullets(ss) && AllMergeOk(rest)
  {
    hide SubsBullets, MergeOk, IsUnreleased, SectionsBullets;
    NothingToMerge();
    SectionsBulletsCons(u, rest);
  }

  lemma NothingToMerge()
    ensures MergeOk([]) && SubsBullets([]) == {}
  {}

  /** No item is lost and none is made: whatever lines are promotable, a pass keeps the set of
      items, unless text at the top of a body falls under an item of an earlier body with the
      same title. */
  lemma NoItemLost(d: Doc, promotable: set<nat>)
    requires AllMergeOk(d.sections)
    ensures DocBullets(Fix(d, promotable, {})) == DocBullets(d)
  {
    hide SectionsBullets, AllMergeOk, Promote, SortSections, NormalizeSections, DropDuplicates, Heights;
    HeightsLength(d.sections);
    DropLength(d.sections, {});
    DropKeepsBullets(d.sections);
    var dropped := DropDuplicates(d.sections, {});
    PromoteKeepsBullets(dropped, Heights(d.sections), |d.prefix| + 1, promotable);
    var promoted := Promote(dropped, Heights(d.sections), |d.prefix| + 1, promotable);
    NormalizeSectionsKeepsBullets(promoted);
    SortKeepsBullets(NormalizeSections(promoted));
  }

  lemma DropLength(ss: seq<Section>, historical: set<Lines>)
    ensures |DropDuplicates(ss, historical)| == |ss|
  {}

  // --------------------------------------------------------- and in the text

  lemma {:induction false} TrimSubsBullets(subs: seq<Sub>)
    ensures SubsBullets(TrimSubs(subs)) == SubsBullets(subs)
  {
    hide Bullets, TrimBlank;
    if subs != [] {
      TrimSubsBullets(subs[1..]);
      BulletsOfTrimmed(subs[0].lines);
      NoBullets();
      var body := TrimBlank(subs[0].lines);
      SubsBulletsOne(Sub(subs[0].title, body));
      SubsBulletsAppend([Sub(subs[0].title, body)], TrimSubs(subs[1..]));
      assert [] + TrimSubs(subs[1..]) == TrimSubs(subs[1..]);
    }
  }

  lemma {:induction false} TrimSectionsBullets(ss: seq<Section>)
    ensures SectionsBullets(TrimSections(ss)) == SectionsBullets(ss)
  {
    hide SubsBullets, TrimBlank, TrimSubs;
    if ss != [] {
      TrimSubsBullets(ss[0].subs);
      TrimSectionsBullets(ss[1..]);
      SectionsBulletsCons(TrimSection(ss[0]), TrimSections(ss[1..]));
    }
  }

  lemma SameTrimSameBullets(a: Doc, b: Doc)
    requires TrimDoc(a) == TrimDoc(b)
    ensures DocBullets(a) == DocBullets(b)
  {
    hide SectionsBullets, TrimSections;
    TrimSectionsBullets(a.sections);
    TrimSectionsBullets(b.sections);
  }
}
