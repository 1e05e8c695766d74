/** A pass of the fixer keeps a document one that can be printed and read back, and what that
    gives for texts (scripts/fix-changelogs.ts:502-580). */
module ChangelogValidity {
  import opened Lists
  import opened Items
  import opened StableSort
  import opened ChangelogText
  import opened ChangelogDocument
  import opened ChangelogFix
  import opened ChangelogItems

  // --------------------------------------------------- lines stay body lines

  lemma {:induction false} EveryFlatten<T>(p: T -> bool, cs: seq<seq<T>>)
    requires forall i :: 0 <= i < |cs| ==> Every(p, cs[i])
    ensures Every(p, Flatten(cs))
  {
    if cs != [] {
      EveryFlatten(p, cs[1..]);
    }
  }

  lemma {:induction false} EveryOfFlatten<T>(p: T -> bool, cs: seq<seq<T>>)
    requires Every(p, Flatten(cs))
    ensures forall i :: 0 <= i < |cs| ==> Every(p, cs[i])
  {
    if cs != [] {
      var s := Flatten(cs);
      assert s == cs[0] + Flatten(cs[1..]);
      assert forall i :: 0 <= i < |cs[0]| ==> s[i] == cs[0][i];
      assert forall i :: 0 <= i < |Flatten(cs[1..])| ==> s[|cs[0]| + i] == Flatten(cs[1..])[i];
      EveryOfFlatten(p, cs[1..]);
      assert forall i :: 0 < i < |cs| ==> cs[i] == cs[1..][i - 1];
    }
  }

  lemma CutLines<T>(m: T -> bool, p: T -> bool, s: seq<T>)
    requires Every(p, s)
    ensures Every(p, Preamble(m, s)) && forall i :: 0 <= i < |Cut(m, s)| ==> Every(p, Cut(m, s)[i])
  {
    EverySlice(p, s, Ahead(m, s));
    EveryOfFlatten(p, Cut(m, s));
  }

  lemma TrimLines<T>(p: T -> bool, q: T -> bool, s: seq<T>)
    requires Every(q, s)
    ensures Every(q, TrimBy(p, s))
  {
    var a, b := TrimBounds(p, s);
  }

  lemma CompactLinesOk(ls: Lines)
    requires Every(BodyLine, ls)
    ensures Every(BodyLine, CompactLines(ls))
  {
    hide BodyLine, IsBullet, IsBlank, TrimBy, Every;
    var t := TrimBlank(ls);
    TrimLines(IsBlank, BodyLine, ls);
    if t != [] && IsBullet(t[0]) {
      CutLines(IsBullet, BodyLine, t);
      var cs := Cut(IsBullet, t);
      forall i | 0 <= i < |cs| ensures Every(BodyLine, TrimEach(IsBlank, cs)[i]) {
        TrimLines(IsBlank, BodyLine, cs[i]);
      }
      EveryFlatten(BodyLine, TrimEach(IsBlank, cs));
    }
  }

  lemma AppendLinesOk(target: Lines, source: Lines)
    requires Every(BodyLine, target) && Every(BodyLine, source)
    ensures Every(BodyLine, AppendLines(target, source))
  {
    hide BodyLine, IsBullet, IsBlank, TrimBy, Every;
    var more, existing := TrimBlank(source), TrimBlank(target);
    TrimLines(IsBlank, BodyLine, source);
    TrimLines(IsBlank, BodyLine, target);
    BlankLines();
    EveryJoin(BodyLine, existing, [""]);
    EveryJoin(BodyLine, existing + [""], more);
    EveryJoin(BodyLine, existing, more);
    assert existing + [] == existing;
  }

  // ------------------------------------------------------ sections stay valid

  lemma SubsOkUpdate(subs: seq<Sub>, k: nat, lines: Lines)
    requires SubsOk(subs) && k < |subs| && Every(BodyLine, lines)
    ensures SubsOk(subs[k := Sub(subs[k].title, lines)])
  {
    hide BodyLine, Every, Clean;
  }

  lemma MergeSubOk(acc: seq<Sub>, s: Sub)
    requires SubsOk(acc) && SubOk(s)
    ensures SubsOk(MergeSub(acc, s))
  {
    hide BodyLine, Every, Clean, CompactLines, AppendLines, Find;
    var lines, k := CompactLines(s.lines), Find(acc, s.title);
    CompactLinesOk(s.lines);
    if k < |acc| {
      AppendLinesOk(acc[k].lines, lines);
      SubsOkUpdate(acc, k, AppendLines(acc[k].lines, lines));
    }
  }

  lemma {:induction false} MergeSubsOk(acc: seq<Sub>, subs: seq<Sub>)
    requires SubsOk(acc) && SubsOk(subs)
    ensures SubsOk(MergeSubs(acc, subs))
    decreases |subs|
  {
    hide SubOk, MergeSub;
    if subs != [] {
      MergeSubOk(acc, subs[0]);
      MergeSubsOk(MergeSub(acc, subs[0]), subs[1..]);
    }
  }

  lemma NormalizeOk(s: Section)
    requires SectionOk(s)
    ensures SectionOk(NormalizeSection(s))
  {
    hide SubOk, IsReleaseHeading, Clean, BodyLine, Every, MergeSubs, IsUnreleased, TrimBy;
    var subs := MergeSubs([], s.subs);
    MergeSubsOk([], s.subs);
    TrimLines(IsBlank, BodyLine, s.leading);
    SameMembers(SortBy(TitleOrder, subs), subs);
    SubsOkMembers(subs, SortBy(TitleOrder, subs));
  }

  lemma SubsOkMembers(a: seq<Sub>, b: seq<Sub>)
    requires SubsOk(a) && forall s :: s in b <==> s in a
    ensures SubsOk(b)
  {
    hide SubOk;
    forall i | 0 <= i < |b| ensures SubOk(b[i]) {
      assert b[i] in a;
    }
  }

  lemma {:induction false} NormalizeSectionsOk(ss: seq<Section>)
    requires SectionsOk(ss)
    ensures SectionsOk(NormalizeSections(ss))
  {
    hide SectionOk, NormalizeSection;
    if ss != [] {
      NormalizeOk(ss[0]);
      NormalizeSectionsOk(ss[1..]);
    }
  }

  lemma SortOk(ss: seq<Section>)
    requires SectionsOk(ss)
    ensures SectionsOk(SortSections(ss))
  {
    hide SectionOk, IsUnreleased, IsReleased;
    SameMembers(SortBy(CompareSections, Filter(IsReleased, ss)), Filter(IsReleased, ss));
    forall i | 0 <= i < |SortSections(ss)| ensures SectionOk(SortSections(ss)[i]) {
      assert SortSections(ss)[i] in ss;
    }
  }

  lemma {:induction false} KeepChunksLines(cs: seq<Lines>, keys: set<Lines>)
    requires forall i :: 0 <= i < |cs| ==> Every(BodyLine, cs[i])
    ensures Every(BodyLine, Flatten(KeepChunks(cs, keys)))
  {
    hide BodyLine, Every, TrimBlank;
    if cs == [] {
      NothingIsBody();
    } else {
      KeepChunksLines(cs[1..], keys);
      var rest := KeepChunks(cs[1..], keys);
      assert [] + rest == rest;
      assert ([cs[0]] + rest)[1..] == rest;
      EveryJoin(BodyLine, cs[0], Flatten(rest));
    }
  }

  lemma {:induction false} DropSubsOk(subs: seq<Sub>, keys: set<Lines>)
    requires SubsOk(subs)
    ensures SubsOk(DropSubs(subs, keys))
  {
    hide BodyLine, Every, Clean, IsBullet;
    if subs != [] {
      var ls := subs[0].lines;
      CutLines(IsBullet, BodyLine, ls);
      KeepChunksLines(Cut(IsBullet, ls), keys);
      EveryJoin(BodyLine, Preamble(IsBullet, ls), Flatten(KeepChunks(Cut(IsBullet, ls), keys)));
      DropSubsOk(subs[1..], keys);
    }
  }

  lemma DropOk(ss: seq<Section>, historical: set<Lines>)
    requires SectionsOk(ss)
    ensures SectionsOk(DropDuplicates(ss, historical))
  {
    hide SubsOk, IsReleaseHeading, Clean, BodyLine, Every, ReleasedBullets, DropSubs;
    var k := FirstUnreleased(ss);
    if k < |ss| {
      DropSubsOk(ss[k].subs, ReleasedBullets(ss) + historical);
    }
  }

  lemma {:induction false} KeptLines(cs: seq<Lines>, line: nat, promotable: set<nat>)
    requires forall i :: 0 <= i < |cs| ==> Every(BodyLine, cs[i])
    ensures Every(BodyLine, Flatten(Kept(cs, line, promotable)))
    ensures forall i :: 0 <= i < |Moved(cs, line, promotable)| ==> Every(BodyLine, Moved(cs, line, promotable)[i])
    decreases |cs|
  {
    hide BodyLine, Every, IsBlank, TrimBy;
    if cs == [] {
      NothingIsBody();
    } else {
      KeptLines(cs[1..], line + |cs[0]|, promotable);
      var rest := Kept(cs[1..], line + |cs[0]|, promotable);
      assert [] + rest == rest;
      assert ([cs[0]] + rest)[1..] == rest;
      EveryJoin(BodyLine, cs[0], Flatten(rest));
      TrimLines(IsBlank, BodyLine, cs[0]);
    }
  }

  lemma {:induction false} AddItemsOk(ls: Lines, items: seq<Lines>)
    requires Every(BodyLine, ls) && forall i :: 0 <= i < |items| ==> Every(BodyLine, items[i])
    ensures Every(BodyLine, AddItems(ls, items))
    decreases |items|
  {
    hide BodyLine, Every, Bullets, AppendLines;
    if items != [] {
      AppendLinesOk(ls, items[0]);
      AddItemsOk(if items[0] in Bullets(ls) then ls else AppendLines(ls, items[0]), items[1..]);
    }
  }

  ghost predicate TitleOk(title: string) {
    SubOk(Sub(title, []))
  }

  lemma AddToSectionOk(u: Section, title: string, items: seq<Lines>)
    requires SectionOk(u) && TitleOk(title) && forall i :: 0 <= i < |items| ==> Every(BodyLine, items[i])
    ensures SectionOk(AddToSection(u, title, items))
  {
    hide BodyLine, Every, Clean, AddItems, IsReleaseHeading;
    var k := FindLast(u.subs, title);
    NothingIsBody();
    if k < |u.subs| {
      AddItemsOk(u.subs[k].lines, items);
      SubsOkUpdate(u.subs, k, AddItems(u.subs[k].lines, items));
    } else {
      AddItemsOk([], items);
    }
  }

  lemma {:induction false} PromoteSubsOk(u: Section, subs: seq<Sub>, line: nat, promotable: set<nat>)
    requires SectionOk(u) && SubsOk(subs)
    ensures SectionOk(PromoteSubs(u, subs, line, promotable).0) && SubsOk(PromoteSubs(u, subs, line, promotable).1)
    decreases |subs|
  {
    hide SectionOk, SubOk, IsBullet, AddToSection, Kept, Moved, Cut, Preamble;
    if subs != [] {
      var ls := subs[0].lines;
      var first := line + 1 + |Preamble(IsBullet, ls)|;
      assert SubOk(subs[0]);
      PromoteOneOk(u, subs[0], first, promotable);
      PromoteSubsOk(AddToSection(u, subs[0].title, Moved(Cut(IsBullet, ls), first, promotable)), subs[1..], line + 1 + |ls|, promotable);
    }
  }

  lemma PromoteOneOk(u: Section, s: Sub, first: nat, promotable: set<nat>)
    requires SectionOk(u) && SubOk(s)
    ensures SectionOk(AddToSection(u, s.title, Moved(Cut(IsBullet, s.lines), first, promotable)))
    ensures SubOk(Sub(s.title, Preamble(IsBullet, s.lines) + Flatten(Kept(Cut(IsBullet, s.lines), first, promotable))))
  {
    hide SectionOk, BodyLine, Every, Clean, IsBullet, AddToSection;
    var cs := Cut(IsBullet, s.lines);
    CutLines(IsBullet, BodyLine, s.lines);
    KeptLines(cs, first, promotable);
    EveryJoin(BodyLine, Preamble(IsBullet, s.lines), Flatten(Kept(cs, first, promotable)));
    NothingIsBody();
    AddToSectionOk(u, s.title, Moved(cs, first, promotable));
  }

  lemma {:induction false} PromoteSectionsOk(u: Section, ss: seq<Section>, heights: seq<nat>, line: nat, promotable: set<nat>)
    requires |heights| == |ss| && SectionOk(u) && SectionsOk(ss)
    ensures SectionOk(PromoteSections(u, ss, heights, line, promotable).0)
    ensures SectionsOk(PromoteSections(u, ss, heights, line, promotable).1)
    decreases |ss|
  {
    hide SubsOk, IsReleaseHeading, Clean, BodyLine, Every, PromoteSubs, IsUnreleased;
    if ss != [] {
      PromoteSubsOk(u, ss[0].subs, line + 1 + |ss[0].leading|, promotable);
      var u1 := if IsUnreleased(ss[0]) then u else PromoteSubs(u, ss[0].subs, line + 1 + |ss[0].leading|, promotable).0;
      PromoteSectionsOk(u1, ss[1..], heights[1..], line + heights[0], promotable);
    }
  }

  lemma EmptyUnreleasedOk()
    ensures SectionOk(NO_UNRELEASED)
  {
    UnreleasedHeading();
    NothingIsBody();
  }

  lemma PromoteOk(ss: seq<Section>, heights: seq<nat>, line: nat, promotable: set<nat>)
    requires |heights| == |ss| && SectionsOk(ss)
    ensures SectionsOk(Promote(ss, heights, line, promotable))
  {
    hide SectionOk, PromoteSections;
    EmptyUnreleasedOk();
    var k := FirstUnreleased(ss);
    var start := if k < |ss| then ss[k] else NO_UNRELEASED;
    PromoteSectionsOk(start, ss, heights, line, promotable);
    PromoteSectionsLength(start, ss, heights, line, promotable);
  }

  /** A pass keeps a document valid. */
  lemma FixOk(d: Doc, promotable: set<nat>, historical: set<Lines>)
    requires DocOk(d)
    ensures DocOk(Fix(d, promotable, historical))
  {
    hide SectionsOk, Promote, SortSections, NormalizeSections, DropDuplicates, Heights, Every, PrefixLine;
    HeightsLength(d.sections);
    DropLength(d.sections, historical);
    DropOk(d.sections, historical);
    var dropped := DropDuplicates(d.sections, historical);
    PromoteOk(dropped, Heights(d.sections), |d.prefix| + 1, promotable);
    var promoted := Promote(dropped, Heights(d.sections), |d.prefix| + 1, promotable);
    NormalizeSectionsOk(promoted);
    SortOk(NormalizeSections(promoted));
  }

  lemma FixContentIs(content: string, promotable: set<nat>, historical: set<Lines>)
    ensures FixContent(content, promotable, historical) == Render(Fix(Parse(content), promotable, historical))
  {}

  /** The fixed text reads back as the fixed document, up to edge blank lines. */
  lemma FixedTextReadsBack(content: string, promotable: set<nat>, historical: set<Lines>)
    ensures TrimDoc(Parse(FixContent(content, promotable, historical))) == TrimDoc(Fix(Parse(content), promotable, historical))
  {
    hide DocOk, Fix, TrimDoc, Parse, Render;
    ParseOk(content);
    FixOk(Parse(content), promotable, historical);
    ParseAfterRender(Fix(Parse(content), promotable, historical));
  }

  /** No item of a text is lost to a pass over it. */
  lemma NoItemLostInText(content: string, promotable: set<nat>)
    requires AllMergeOk(Parse(content).sections)
    ensures DocBullets(Parse(FixContent(content, promotable, {}))) == DocBullets(Parse(content))
  {
    hide DocBullets, Fix, TrimDoc, Parse, FixContent, AllMergeOk;
    FixedTextReadsBack(content, promotable, {});
    SameTrimSameBullets(Parse(FixContent(content, promotable, {})), Fix(Parse(content), promotable, {}));
    NoItemLost(Parse(content), promotable);
  }
}
