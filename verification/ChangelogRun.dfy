/** `fixChangelogContent`: a document read, edited in place by one pass after another, and printed
    (scripts/fix-changelogs.ts:148-181, 284-301, 412-416, 457-462, 502-580). */
module ChangelogRun {
  import opened Basics
  import opened Lists
  import opened StableSort
  import opened ChangelogText
  import opened ChangelogDocument
  import opened ChangelogFix
  import opened ChangelogItems
  import opened ChangelogLines
  import opened ChangelogFixer
  import opened ChangelogEditing
  import opened ChangelogValidity
  import Order = ChangelogOrder

  function Total(heights: seq<nat>): nat {
    if heights == [] then 0 else heights[0] + Total(heights[1..])
  }

  lemma {:induction false} TotalAppend(heights: seq<nat>, h: nat)
    ensures Total(heights + [h]) == Total(heights) + h
  {
    if heights == [] {
      assert heights + [h] == [h] && [h][1..] == [];
    } else {
      assert (heights + [h])[1..] == heights[1..] + [h];
      TotalAppend(heights[1..], h);
    }
  }

  /** Each released section has the line numbers it has in the text. */
  ghost predicate Placed(ss: seq<ReleaseSection>, heights: seq<nat>, line: nat) {
    |heights| == |ss| && forall i :: 0 <= i < |ss| ==> SectionPlaced(ss[i], line + Total(heights[..i]))
  }

  lemma {:induction false} HeightsAppend(ss: seq<Section>, s: Section)
    ensures Heights(ss + [s]) == Heights(ss) + [Height(s)]
  {
    hide Height;
    if ss == [] {
      assert ss + [s] == [s] && [s][1..] == [];
    } else {
      assert (ss + [s])[1..] == ss[1..] + [s];
      HeightsAppend(ss[1..], s);
    }
  }

  lemma PlainSectionsAppend(ss: seq<ReleaseSection>, s: ReleaseSection)
    ensures PlainSections(ss + [s]) == PlainSections(ss) + [s.Plain()]
  {
    hide ReleaseSection.Plain;
  }

  lemma PlainSectionsUpdate(ss: seq<ReleaseSection>, k: nat, s: ReleaseSection)
    requires k < |ss|
    ensures PlainSections(ss[k := s]) == PlainSections(ss)[k := s.Plain()]
  {
    hide ReleaseSection.Plain;
  }

  // ------------------------------------------------------------------ reading

  lemma SectionTexts(lines: NumberedLines, index: nat, end: nat)
    requires index < end <= |lines| && ReleaseAt(lines[index]) && Lacks(ReleaseAt, lines[index + 1..end]) && (end < |lines| ==> ReleaseAt(lines[end]))
    ensures Texts(lines[index..]) == [lines[index].text] + Texts(lines[index + 1..end]) + Texts(lines[end..])
    ensures IsReleaseHeading(lines[index].text) && Lacks(IsReleaseHeading, Texts(lines[index + 1..end]))
    ensures Texts(lines[end..]) == [] || IsReleaseHeading(Texts(lines[end..])[0])
  {
    hide IsReleaseHeading;
    assert lines[index..] == [lines[index]] + lines[index + 1..end] + lines[end..];
    TextsAppend([lines[index]] + lines[index + 1..end], lines[end..]);
    TextsAppend([lines[index]], lines[index + 1..end]);
    assert Texts([lines[index]]) == [lines[index].text];
  }

  /** How far the loop over the sections of a text has come. */
  ghost predicate Read(lines: NumberedLines, start: nat, first: nat, index: nat, sections: seq<ReleaseSection>)
    requires start <= index <= |lines|
  {
    var all, rest := Texts(lines[start..]), Texts(lines[index..]);
    && (all == [] || IsReleaseHeading(all[0])) && (rest == [] || IsReleaseHeading(rest[0]))
    && PlainSections(sections) + ParseSections(rest) == ParseSections(all)
    && Placed(sections, Heights(PlainSections(sections)), first + start)
    && start + Total(Heights(PlainSections(sections))) == index
  }

  lemma ReadStep(lines: NumberedLines, start: nat, first: nat, index: nat, end: nat, sections: seq<ReleaseSection>, s: ReleaseSection)
    requires start <= index < end <= |lines| && Read(lines, start, first, index, sections)
    requires ReleaseAt(lines[index]) && Lacks(ReleaseAt, lines[index + 1..end]) && (end < |lines| ==> ReleaseAt(lines[end]))
    requires s.Plain() == ParseSection(lines[index].text, Texts(lines[index + 1..end])) && SectionPlaced(s, first + index)
    ensures Read(lines, start, first, end, sections + [s])
  {
    hide IsReleaseHeading, Lacks, Texts, ReleaseSection.Plain, PlainSections, ParseSection, ParseSections, Height, SectionPlaced, Heights, Total;
    SectionTexts(lines, index, end);
    var body, rest := Texts(lines[index + 1..end]), Texts(lines[end..]);
    ParseSectionsStep(lines[index].text, body, rest);
    PlainSectionsAppend(sections, s);
    assert PlainSections(sections) + ([s.Plain()] + ParseSections(rest)) == PlainSections(sections) + [s.Plain()] + ParseSections(rest);
    HeightsAppend(PlainSections(sections), s.Plain());
    SectionHeightIs(lines[index].text, body);
    TextsLength(lines[index + 1..end]);
    TotalAppend(Heights(PlainSections(sections)), Height(s.Plain()));
    PlacedAppendSection(sections, s, first + start);
  }

  lemma TextsLength(lines: NumberedLines)
    ensures |Texts(lines)| == |lines|
  {}

  lemma PlacedAppendSection(ss: seq<ReleaseSection>, s: ReleaseSection, line: nat)
    requires var h := Heights(PlainSections(ss)); Placed(ss, h, line) && SectionPlaced(s, line + Total(h))
    ensures Placed(ss + [s], Heights(PlainSections(ss)) + [Height(s.Plain())], line)
  {
    hide SectionPlaced, Height, Heights, PlainSections, ReleaseSection.Plain;
    var h := Heights(PlainSections(ss));
    var all := h + [Height(s.Plain())];
    forall i | 0 <= i < |ss + [s]| ensures SectionPlaced((ss + [s])[i], line + Total(all[..i])) {
      assert all[..i] == h[..i];
      assert h[..|ss|] == h;
    }
  }

  lemma ReadStart(lines: NumberedLines, start: nat, first: nat)
    requires start <= |lines| && (start < |lines| ==> ReleaseAt(lines[start]))
    ensures Read(lines, start, first, start, [])
  {
    hide IsReleaseHeading;
    assert PlainSections([]) == [];
    assert PlainSections([]) + ParseSections(Texts(lines[start..])) == ParseSections(Texts(lines[start..]));
  }

  lemma ReadEnd(lines: NumberedLines, start: nat, first: nat, sections: seq<ReleaseSection>)
    requires start <= |lines| && Read(lines, start, first, |lines|, sections)
    ensures Texts(lines[start..]) == [] || IsReleaseHeading(Texts(lines[start..])[0])
    ensures PlainSections(sections) == ParseSections(Texts(lines[start..]))
    ensures Placed(sections, Heights(PlainSections(sections)), first + start)
  {
    hide IsReleaseHeading;
    assert Texts(lines[|lines|..]) == [];
    assert PlainSections(sections) + [] == PlainSections(sections);
  }

  /** The sections of numbered lines, from the first heading on. */
  method ReadSections(lines: NumberedLines, start: nat, ghost first: nat) returns (sections: seq<ReleaseSection>)
    requires start <= |lines| && (start < |lines| ==> ReleaseAt(lines[start])) && From(lines, first)
    ensures Texts(lines[start..]) == [] || IsReleaseHeading(Texts(lines[start..])[0])
    ensures PlainSections(sections) == ParseSections(Texts(lines[start..]))
    ensures Placed(sections, Heights(PlainSections(sections)), first + start)
  {
    hide ReleaseAt, IsReleaseHeading, Read, From, Lacks, SectionPlaced, Placed, ParseSections, ReleaseSection.Plain, Texts;
    sections := [];
    var index := start;
    ReadStart(lines, start, first);
    while index < |lines|
      invariant start <= index <= |lines| && (index < |lines| ==> ReleaseAt(lines[index]))
      invariant Read(lines, start, first, index, sections)
    {
      var headingLine := lines[index];
      var end := Until(ReleaseAt, lines, index + 1);
      FromSlice(lines, first, index + 1, end);
      var section := ParseReleaseSection(headingLine.text, lines[index + 1..end], first + index);
      ReadStep(lines, start, first, index, end, sections, section);
      sections := sections + [section];
      index := end;
    }
    ReadEnd(lines, start, first, sections);
  }

  // ------------------------------------------------------------- promotion, all sections

  /** How far promotion has come: `done` are the sections behind, `u` is the Unreleased one. */
  ghost predicate Progress(u0: Section, ss: seq<Section>, heights: seq<nat>, line: nat, promotable: set<nat>, p: nat, u: Section, done: seq<Section>)
    requires |heights| == |ss| && p <= |ss|
  {
    var (u2, rest) := PromoteSections(u, ss[p..], heights[p..], line + Total(heights[..p]), promotable);
    PromoteSections(u0, ss, heights, line, promotable) == (u2, done + rest)
  }

  lemma ProgressStart(u: Section, ss: seq<Section>, heights: seq<nat>, line: nat, promotable: set<nat>)
    requires |heights| == |ss|
    ensures Progress(u, ss, heights, line, promotable, 0, u, [])
  {
    hide PromoteSections;
    assert ss[0..] == ss && heights[0..] == heights && heights[..0] == [];
    var (u2, rest) := PromoteSections(u, ss, heights, line, promotable);
    assert [] + rest == rest;
  }

  lemma ProgressEnd(u0: Section, ss: seq<Section>, heights: seq<nat>, line: nat, promotable: set<nat>, u: Section, done: seq<Section>)
    requires |heights| == |ss| && Progress(u0, ss, heights, line, promotable, |ss|, u, done)
    ensures PromoteSections(u0, ss, heights, line, promotable) == (u, done)
  {
    assert ss[|ss|..] == [] && done + [] == done;
  }

  /** What one section contributes. */
  function Visit(u: Section, s: Section, line: nat, promotable: set<nat>): (Section, Section) {
    if IsUnreleased(s) then (u, s)
    else
      var (u1, subs) := PromoteSubs(u, s.subs, line + 1 + |s.leading|, promotable);
      (u1, s.(subs := subs))
  }

  lemma VisitUnfolds(u: Section, ss: seq<Section>, heights: seq<nat>, line: nat, promotable: set<nat>)
    requires |heights| == |ss| && ss != []
    ensures var (u1, s) := Visit(u, ss[0], line, promotable);
      var (u2, rest) := PromoteSections(u1, ss[1..], heights[1..], line + heights[0], promotable);
      PromoteSections(u, ss, heights, line, promotable) == (u2, [s] + rest)
  {
    hide IsUnreleased, PromoteSubs;
    assert ss[0].(subs := ss[0].subs) == ss[0];
  }

  lemma ProgressStep(u0: Section, ss: seq<Section>, heights: seq<nat>, line: nat, promotable: set<nat>, p: nat, u: Section, done: seq<Section>)
    requires |heights| == |ss| && p < |ss| && Progress(u0, ss, heights, line, promotable, p, u, done)
    ensures var (u1, s) := Visit(u, ss[p], line + Total(heights[..p]), promotable);
      Progress(u0, ss, heights, line, promotable, p + 1, u1, done + [s])
  {
    hide Visit, PromoteSections;
    assert ss[p..][0] == ss[p] && ss[p..][1..] == ss[p + 1..] && heights[p..][0] == heights[p] && heights[p..][1..] == heights[p + 1..];
    assert heights[..p + 1] == heights[..p] + [heights[p]];
    TotalAppend(heights[..p], heights[p]);
    VisitUnfolds(u, ss[p..], heights[p..], line + Total(heights[..p]), promotable);
    var (u1, s) := Visit(u, ss[p], line + Total(heights[..p]), promotable);
    var (u2, rest) := PromoteSections(u1, ss[p + 1..], heights[p + 1..], line + Total(heights[..p + 1]), promotable);
    assert done + ([s] + rest) == done + [s] + rest;
  }

  /** The Unreleased section that items go to: the found one, or the one still to be made. */
  function Target(sections: seq<ReleaseSection>, unreleased: Option<nat>): ReleaseSection
    requires unreleased.Some? ==> unreleased.value < |sections|
  {
    if unreleased.Some? then sections[unreleased.value] else ReleaseSection(UNRELEASED_HEADING, [], [])
  }

  /** The sections during promotion. Of the sections `was`, the first `p` are behind, as `done`
      says; an Unreleased section made on the way stands in front of all. */
  ghost predicate Going(was: seq<ReleaseSection>, now: seq<ReleaseSection>, unreleased: Option<nat>, p: nat, done: seq<Section>) {
    var k, shift := FirstUnreleased(PlainSections(was)), |now| - |was|;
    && p <= |was| && |done| == p && 0 <= shift <= 1
    && unreleased == (if k < |was| then Some(k) else if shift == 1 then Some(0) else None)
    && (k < |was| ==> shift == 0 && now[k].heading == was[k].heading)
    && (shift == 1 ==> now[0].heading == UNRELEASED_HEADING && now[0].subs != [])
    && (forall q :: 0 <= q < p && q != k ==> now[q + shift].Plain() == done[q])
    && (forall q :: p <= q < |was| && q != k ==> now[q + shift] == was[q])
  }

  lemma UnreleasedKind(was: seq<ReleaseSection>, k: nat)
    requires k == FirstUnreleased(PlainSections(was))
    ensures k < |was| ==> IsUnreleased(was[k].Plain())
  {
    FirstUnreleasedIs(PlainSections(was));
  }

  lemma SameHeadingSameKind(a: ReleaseSection, b: ReleaseSection)
    requires a.heading == b.heading
    ensures IsUnreleased(a.Plain()) <==> IsUnreleased(b.Plain())
  {}

  /** The next section is one that was there before, except that the Unreleased one may have grown. */
  lemma NextSection(was: seq<ReleaseSection>, now: seq<ReleaseSection>, unreleased: Option<nat>, p: nat, done: seq<Section>)
    requires Going(was, now, unreleased, p, done) && p < |was|
    ensures p + (|now| - |was|) < |now|
    ensures IsUnreleased(now[p + (|now| - |was|)].Plain()) <==> IsUnreleased(was[p].Plain())
    ensures !IsUnreleased(was[p].Plain()) ==> now[p + (|now| - |was|)] == was[p]
  {
    hide ReleaseSection.Plain, IsUnreleased, FirstUnreleased;
    var k := FirstUnreleased(PlainSections(was));
    UnreleasedKind(was, k);
    if p == k {
      SameHeadingSameKind(now[p], was[p]);
    }
  }

  /** Passing over an Unreleased section. */
  lemma GoingPast(was: seq<ReleaseSection>, now: seq<ReleaseSection>, unreleased: Option<nat>, p: nat, done: seq<Section>)
    requires Going(was, now, unreleased, p, done) && p < |was|
    ensures Going(was, now, unreleased, p + 1, done + [was[p].Plain()])
  {
    hide ReleaseSection.Plain, FirstUnreleased;
  }

  /** Storing what a visit leaves of a released section, and the target that may have grown. */
  lemma GoingOn(was: seq<ReleaseSection>, now: seq<ReleaseSection>, unreleased: Option<nat>, p: nat, done: seq<Section>,
                r: ReleaseSection, u: ReleaseSection, moved: bool)
    requires Going(was, now, unreleased, p, done) && p < |was| && !IsUnreleased(was[p].Plain())
    requires unreleased.Some? ==> unreleased.value < |now|
    requires u.heading == Target(now, unreleased).heading && (moved ==> u.subs != []) && (!moved ==> u == Target(now, unreleased))
    ensures p + (|now| - |was|) < |now|
    ensures var stored := now[p + (|now| - |was|) := r];
      && (unreleased.Some? ==> Going(was, stored[unreleased.value := u], unreleased, p + 1, done + [r.Plain()]))
      && (unreleased.None? && moved ==> Going(was, [u] + stored, Some(0), p + 1, done + [r.Plain()]))
      && (unreleased.None? && !moved ==> Going(was, stored, None, p + 1, done + [r.Plain()]))
  {
    hide ReleaseSection.Plain, FirstUnreleased, IsUnreleased;
    var k := FirstUnreleased(PlainSections(was));
    UnreleasedKind(was, k);
    assert p != k;
  }

  /** What is there at the end is what promotion makes. */
  lemma GoingDone(was: seq<ReleaseSection>, now: seq<ReleaseSection>, unreleased: Option<nat>, done: seq<Section>, heights: seq<nat>, line: nat, promotable: set<nat>)
    requires Going(was, now, unreleased, |was|, done) && |heights| == |was|
    requires unreleased.Some? ==> unreleased.value < |now|
    requires var ss := PlainSections(was); var k := FirstUnreleased(ss);
      PromoteSections(if k < |ss| then ss[k] else NO_UNRELEASED, ss, heights, line, promotable) == (Target(now, unreleased).Plain(), done)
    ensures PlainSections(now) == Promote(PlainSections(was), heights, line, promotable)
  {
    hide FirstUnreleased, PromoteSections, ReleaseSection.Plain;
    var ss := PlainSections(was);
    var k := FirstUnreleased(ss);
    TargetPlain(now, unreleased);
    if k < |ss| {
      assert PlainSections(now) == done[k := now[k].Plain()];
    } else if |now| == |was| {
      assert PlainSections(now) == done;
    } else {
      assert PlainSections(now) == [now[0].Plain()] + done;
    }
  }

  lemma TargetPlain(now: seq<ReleaseSection>, unreleased: Option<nat>)
    requires unreleased.Some? ==> unreleased.value < |now|
    ensures unreleased.None? ==> Target(now, unreleased).Plain() == NO_UNRELEASED
    ensures unreleased.Some? && now[unreleased.value].subs != [] ==> Target(now, unreleased).Plain() != NO_UNRELEASED
  {
    assert Texts([]) == [] && PlainSubs([]) == [];
    if unreleased.Some? && now[unreleased.value].subs != [] {
      assert |PlainSubs(now[unreleased.value].subs)| > 0;
    }
  }

  /** The first Unreleased section, if there is one. */
  method FindUnreleased(sections: seq<ReleaseSection>) returns (k: Option<nat>)
    ensures k == var i := FirstUnreleased(PlainSections(sections)); if i < |sections| then Some(i) else None
  {
    hide IsUnreleased, ReleaseSection.Plain;
    ghost var plain := PlainSections(sections);
    for i := 0 to |sections|
      invariant Lacks(IsUnreleased, plain[..i])
    {
      assert plain[..i + 1] == plain[..i] + [plain[i]];
      if IsUnreleased(sections[i].Plain()) {
        AheadIs(IsUnreleased, plain[..i], plain[i..]);
        assert plain == plain[..i] + plain[i..];
        return Some(i);
      }
    }
    AheadIs(IsUnreleased, plain[..|sections|], []);
    assert plain == plain[..|sections|] + [];
    return None;
  }

  // ------------------------------------------------------------------ the document

  class Changelog {
    var prefixLines: NumberedLines
    var sections: seq<ReleaseSection>

    ghost function Plain(): Doc
      reads this
    {
      Doc(Texts(prefixLines), PlainSections(sections))
    }

    /** `parseChangelog` */
    constructor FromText(content: string)
      ensures Plain() == Parse(content)
      ensures Placed(sections, Heights(Plain().sections), |prefixLines| + 1)
    {
      hide ReleaseAt, IsReleaseHeading, From, Lacks, Placed, ParseSections, Texts, SplitContentLines;
      var numberedLines := Numbered(SplitContentLines(content), 1);
      NumberedFrom(SplitContentLines(content), 1);
      var index := Until(ReleaseAt, numberedLines, 0);
      SamePredicate(numberedLines);
      AheadUntil(ReleaseAt, IsReleaseHeading, numberedLines, 0, index);
      assert numberedLines[0..] == numberedLines && numberedLines[0..index] == numberedLines[..index];
      var read := ReadSections(numberedLines, index, 1);
      prefixLines := numberedLines[..index];
      sections := read;
    }

    /** `dropUnreleasedDuplicatesOfReleased` */
    method DropUnreleasedDuplicatesOfReleased(historical: set<Lines>)
      requires forall i, j :: 0 <= i < |sections| && 0 <= j < |sections[i].subs| ==> Increasing(sections[i].subs[j].lines)
      modifies this`sections
      ensures PlainSections(sections) == DropDuplicates(old(PlainSections(sections)), historical)
      ensures |sections| == |old(sections)|
      ensures forall i :: 0 <= i < |sections| ==> sections[i].heading == old(sections)[i].heading
      ensures forall i :: 0 <= i < |sections| && !IsUnreleased(old(sections)[i].Plain()) ==> sections[i] == old(sections)[i]
    {
      hide IsUnreleased, ReleasedBullets, DropSubs, Increasing, ReleaseSection.Plain;
      var unreleased := FindUnreleased(sections);
      if unreleased.None? {
        return;
      }
      var k := unreleased.value;
      UnreleasedKind(sections, k);
      var releasedKeys := CollectReleasedItemKeys(sections);
      releasedKeys := releasedKeys + historical;
      var kept := DropFromSection(sections[k], releasedKeys);
      PlainSectionsUpdate(sections, k, kept);
      sections := sections[k := kept];
    }

    /** Moves the promotable items of released sections to the Unreleased one. When that has to be
        made, it goes in front, so the section being visited comes round once more. */
    method PromoteItems(promotable: set<nat>, ghost heights: seq<nat>, ghost line: nat)
      requires |heights| == |sections|
      requires forall i :: 0 <= i < |sections| && !IsUnreleased(sections[i].Plain()) ==> SectionPlaced(sections[i], line + Total(heights[..i]))
      modifies this`sections
      ensures PlainSections(sections) == Promote(old(PlainSections(sections)), heights, line, promotable)
    {
      hide IsUnreleased, SectionPlaced, SectionSettled, SectionReady, Progress, Going, Visit, PromoteSubs, ReleaseSection.Plain, Stored, Target, Total, FirstUnreleased, Promote, PromoteSections;
      ghost var was, plain := sections, PlainSections(sections);
      ghost var p: nat, done: seq<Section>, again := 0, [], false;
      var unreleased: Option<nat> := FindUnreleased(sections);
      GoingStart(sections, unreleased);
      ghost var start := Target(sections, unreleased).Plain();
      ProgressStart(start, plain, heights, line, promotable);
      var i := 0;
      while i < |sections|
        invariant 0 <= i && unreleased.Some? ==> unreleased.value < |sections|
        invariant |sections| >= |was| && i + (if again then 1 else 0) == p + (|sections| - |was|)
        invariant Going(was, sections, unreleased, p, done) && p <= |was|
        invariant Progress(start, plain, heights, line, promotable, p, Target(sections, unreleased).Plain(), done)
        invariant again ==> i < |sections| && SectionSettled(sections[i], promotable) && !IsUnreleased(sections[i].Plain())
        decreases |was| - p, if again then 1 else 0
      {
        if !again {
          NextSection(was, sections, unreleased, p, done);
        }
        if IsUnreleased(sections[i].Plain()) {
          GoingPast(was, sections, unreleased, p, done);
          ProgressStep(start, plain, heights, line, promotable, p, Target(sections, unreleased).Plain(), done);
          VisitUnreleased(Target(sections, unreleased).Plain(), plain[p], line + Total(heights[..p]), promotable);
          done, p := done + [plain[p]], p + 1;
          i := i + 1;
          continue;
        }
        TargetKind(was, sections, unreleased, p, done);
        var u := Target(sections, unreleased);
        ghost var at := if again then 0 else line + Total(heights[..p]);
        ghost var now := sections;
        ReadyToVisit(sections[i], at, promotable, again);
        var visited, grown, moved := PromoteFromSection(sections[i], u, promotable, at, again);
        SameHeadingSameKind(visited, sections[i]);
        if !again {
          Visited(was, now, unreleased, p, done, visited, grown, moved, at, promotable);
          ProgressStep(start, plain, heights, line, promotable, p, u.Plain(), done);
          done, p := done + [visited.Plain()], p + 1;
        }
        ghost var created := moved && unreleased.None?;
        sections, unreleased := Store(sections, unreleased, i, visited, grown, moved);
        again := created;
        i := i + 1;
      }
      ProgressEnd(start, plain, heights, line, promotable, Target(sections, unreleased).Plain(), done);
      GoingDone(was, sections, unreleased, done, heights, line, promotable);
    }

    /** Every section normalized in its place. */
    method NormalizeAll()
      modifies this`sections
      ensures PlainSections(sections) == NormalizeSections(old(PlainSections(sections)))
    {
      hide NormalizeSection, ReleaseSection.Plain;
      ghost var was, plain := sections, PlainSections(sections);
      assert plain[..0] == [];
      for i := 0 to |sections|
        invariant |sections| == |was|
        invariant PlainSections(sections) == NormalizeSections(plain[..i]) + plain[i..]
      {
        NormalizeStep(plain, i, PlainSections(sections));
        var normalized := Normalize(sections[i]);
        PlainSectionsUpdate(sections, i, normalized);
        sections := sections[i := normalized];
      }
      assert plain[..|was|] == plain && NormalizeSections(plain) + [] == NormalizeSections(plain);
    }

    /** `sortReleaseSections` */
    method SortReleaseSections()
      modifies this`sections
      ensures PlainSections(sections) == SortSections(old(PlainSections(sections)))
    {
      hide IsUnreleased, CompareSections, ReleaseSection.Plain;
      PlainFilter(sections);
      var unreleasedSections := Filter(UnreleasedSection, sections);
      var releasedSections := Filter(ReleasedSection, sections);
      PlainSort(releasedSections);
      releasedSections := SortBy(ReleaseOrder, releasedSections);
      PlainJoin(unreleasedSections, releasedSections);
      sections := unreleasedSections + releasedSections;
    }

    /** `renderChangelog` */
    method Print() returns (content: string)
      requires forall i :: 0 <= i < |sections| ==> sections[i].heading != ""
      ensures content == Render(Plain())
    {
      hide TrimBlank, RenderLines, SectionBlocks, ReleaseSection.Plain;
      var output := [];
      var prefix := TrimBlankLines(Texts(prefixLines));
      if |prefix| > 0 {
        output := prefix + [""];
      }
      var blocks := PrintSections(sections);
      output := output + blocks;
      PlainHeadings(sections);
      BlocksArePrinted(Plain(), output);
      output := PopEmptyLines(output, RenderLines(Plain()));
      content := Join(output) + "\n";
    }
  }

  method PrintSections(sections: seq<ReleaseSection>) returns (output: Lines)
    ensures output == SectionBlocks(PlainSections(sections))
  {
    hide SectionBlocks, RenderBody, ReleaseSection.Plain;
    output := [];
    ghost var plain := PlainSections(sections);
    NoBlocks(plain);
    for i := 0 to |sections|
      invariant output == SectionBlocks(plain[..i])
    {
      var section := PrintSection(sections[i]);
      SectionBlocksStep(plain, i);
      PlainHeading(sections[i]);
      output := output + ([sections[i].heading] + section + [""]);
    }
  }

  lemma NoBlocks(plain: seq<Section>)
    ensures SectionBlocks(plain[..0]) == [] && plain[..|plain|] == plain
  {}

  /** Takes the trailing empty lines off. */
  method PopEmptyLines(lines: Lines, ghost full: Lines) returns (output: Lines)
    requires EndsFull(full) && (lines == full || (full != [] && lines == full + [""]))
    ensures output == full
  {
    output := lines;
    while |output| > 0 && output[|output| - 1] == ""
      invariant output == full || (full != [] && output == full + [""])
      decreases |output|
    {
      output := output[..|output| - 1];
    }
  }

  /** `fixChangelogContent` */
  method FixChangelogContent(content: string, promotable: set<nat>, historical: set<Lines>) returns (fixed: string)
    ensures fixed == FixContent(content, promotable, historical) && Order.TextInOrder(content, fixed)
  {
    hide Order.TextInOrder, Fix, FixContent, DropDuplicates, Promote, NormalizeSections, SortSections, Heights, Placed, Render, Parse, IsUnreleased, SectionPlaced, ReleaseSection.Plain;
    var document := new Changelog.FromText(content);
    ghost var d := document.Plain();
    ghost var heights, line := Heights(d.sections), |document.prefixLines| + 1;
    PlacedIncreasing(document.sections, heights, line);
    ghost var read := document.sections;
    document.DropUnreleasedDuplicatesOfReleased(historical);
    StillPlaced(read, document.sections, heights, line);
    PassLength(document.prefixLines);
    document.PromoteItems(promotable, heights, line);
    document.NormalizeAll();
    document.SortReleaseSections();
    FixIs(d, promotable, historical);
    HeadingsThere(content, promotable, historical, document.sections);
    fixed := document.Print();
    FixContentIs(content, promotable, historical);
    Order.FixedTextInOrder(content, promotable, historical);
  }

  /** The list after a visit: the visited section stored, and the target that has grown, in front
      if it is new. */
  function Stored(sections: seq<ReleaseSection>, unreleased: Option<nat>, i: nat, visited: ReleaseSection, grown: ReleaseSection, moved: bool): seq<ReleaseSection>
    requires i < |sections| && (unreleased.Some? ==> unreleased.value < |sections|)
  {
    var stored := sections[i := visited];
    if !moved then stored
    else if unreleased.None? then [grown] + stored
    else stored[unreleased.value := grown]
  }

  method Store(sections: seq<ReleaseSection>, unreleased: Option<nat>, i: nat, visited: ReleaseSection, grown: ReleaseSection, moved: bool)
    returns (after: seq<ReleaseSection>, target: Option<nat>)
    requires i < |sections| && (unreleased.Some? ==> unreleased.value < |sections|)
    requires !moved ==> grown == Target(sections, unreleased)
    requires unreleased.Some? && unreleased.value == i ==> moved
    ensures after == Stored(sections, unreleased, i, visited, grown, moved)
    ensures target == (if moved && unreleased.None? then Some(0) else unreleased)
    ensures (target.Some? ==> target.value < |after|) && Target(after, target) == grown
    ensures |after| == |sections| + (if moved && unreleased.None? then 1 else 0)
    ensures moved && unreleased.None? ==> after[i + 1] == visited
    ensures !moved && visited == sections[i] ==> after == sections
  {
    after, target := sections[i := visited], unreleased;
    if moved {
      if unreleased.None? {
        after := [grown] + after;
        target := Some(0);
      } else {
        after := after[unreleased.value := grown];
      }
    }
  }

  lemma Visited(was: seq<ReleaseSection>, now: seq<ReleaseSection>, unreleased: Option<nat>, p: nat, done: seq<Section>,
                visited: ReleaseSection, grown: ReleaseSection, moved: bool, at: nat, promotable: set<nat>)
    requires Going(was, now, unreleased, p, done) && p < |was| && !IsUnreleased(was[p].Plain())
    requires unreleased.Some? ==> unreleased.value < |now| && unreleased.value != p + (|now| - |was|)
    requires |now| >= |was| && p + (|now| - |was|) < |now|
    requires visited.heading == was[p].heading && visited.leading == was[p].leading
    requires grown.heading == Target(now, unreleased).heading && (moved ==> grown.subs != []) && (!moved ==> grown == Target(now, unreleased))
    requires PromoteSubs(Target(now, unreleased).Plain(), PlainSubs(was[p].subs), at + 1 + |was[p].leading|, promotable) == (grown.Plain(), PlainSubs(visited.subs))
    ensures Going(was, Stored(now, unreleased, p + (|now| - |was|), visited, grown, moved), if moved && unreleased.None? then Some(0) else unreleased,
                  p + 1, done + [visited.Plain()])
    ensures Visit(Target(now, unreleased).Plain(), was[p].Plain(), at, promotable) == (grown.Plain(), visited.Plain())
  {
    hide IsUnreleased, PromoteSubs, Going, ReleaseSection.Plain, Visit;
    GoingOn(was, now, unreleased, p, done, visited, grown, moved);
    VisitReleased(Target(now, unreleased), was[p], visited, grown, at, promotable);
    var stored := now[p + (|now| - |was|) := visited];
    assert unreleased.Some? && !moved ==> stored[unreleased.value := grown] == stored;
  }

  /** The target is Unreleased, so it is not the section being visited. */
  lemma TargetKind(was: seq<ReleaseSection>, now: seq<ReleaseSection>, unreleased: Option<nat>, p: nat, done: seq<Section>)
    requires Going(was, now, unreleased, p, done)
    ensures unreleased.Some? ==> unreleased.value < |now| && IsUnreleased(now[unreleased.value].Plain())
  {
    hide ReleaseSection.Plain, IsUnreleased, FirstUnreleased;
    var k := FirstUnreleased(PlainSections(was));
    UnreleasedKind(was, k);
    if k < |was| {
      SameHeadingSameKind(now[k], was[k]);
    } else if unreleased.Some? {
      NewSectionKind(now[0]);
    }
  }

  lemma NewSectionKind(s: ReleaseSection)
    requires s.heading == UNRELEASED_HEADING
    ensures IsUnreleased(s.Plain())
  {
    UnreleasedHeading();
  }

  lemma NumberedFrom(ls: Lines, first: nat)
    ensures From(Numbered(ls, first), first) && Texts(Numbered(ls, first)) == ls
  {
    assert Texts(Numbered(ls, first)) == ls;
  }

  lemma SamePredicate(lines: NumberedLines)
    ensures forall i :: 0 <= i < |lines| ==> ReleaseAt(lines[i]) == IsReleaseHeading(lines[i].text)
  {}

  lemma GoingStart(sections: seq<ReleaseSection>, unreleased: Option<nat>)
    requires unreleased == var i := FirstUnreleased(PlainSections(sections)); if i < |sections| then Some(i) else None
    ensures Going(sections, sections, unreleased, 0, [])
    ensures var ss := PlainSections(sections); var k := FirstUnreleased(ss);
      Target(sections, unreleased).Plain() == if k < |ss| then ss[k] else NO_UNRELEASED
  {
    hide FirstUnreleased;
    TargetPlain(sections, unreleased);
  }

  lemma VisitUnreleased(u: Section, s: Section, line: nat, promotable: set<nat>)
    requires IsUnreleased(s)
    ensures Visit(u, s, line, promotable) == (u, s)
  {}

  lemma ReadyToVisit(s: ReleaseSection, line: nat, promotable: set<nat>, settled: bool)
    requires if settled then SectionSettled(s, promotable) else SectionPlaced(s, line)
    ensures SectionReady(s, line, promotable, settled)
  {}

  lemma VisitReleased(u: ReleaseSection, s: ReleaseSection, visited: ReleaseSection, grown: ReleaseSection, line: nat, promotable: set<nat>)
    requires !IsUnreleased(s.Plain()) && visited.heading == s.heading && visited.leading == s.leading
    requires PromoteSubs(u.Plain(), PlainSubs(s.subs), line + 1 + |s.leading|, promotable) == (grown.Plain(), PlainSubs(visited.subs))
    ensures Visit(u.Plain(), s.Plain(), line, promotable) == (grown.Plain(), visited.Plain())
  {
    hide IsUnreleased, PromoteSubs;
  }

  lemma NormalizeStep(plain: seq<Section>, i: nat, now: seq<Section>)
    requires i < |plain| && now == NormalizeSections(plain[..i]) + plain[i..]
    ensures i < |now| == |plain| && now[i] == plain[i]
    ensures now[i := NormalizeSection(plain[i])] == NormalizeSections(plain[..i + 1]) + plain[i + 1..]
  {
    hide NormalizeSection;
    assert plain[..i + 1] == plain[..i] + [plain[i]];
    NormalizeAppend(plain[..i], plain[i]);
  }

  lemma {:induction false} NormalizeAppend(ss: seq<Section>, s: Section)
    ensures NormalizeSections(ss + [s]) == NormalizeSections(ss) + [NormalizeSection(s)] && |NormalizeSections(ss)| == |ss|
  {
    hide NormalizeSection;
    if ss == [] {
      assert ss + [s] == [s] && [s][1..] == [];
    } else {
      assert (ss + [s])[1..] == ss[1..] + [s];
      NormalizeAppend(ss[1..], s);
    }
  }

  // ------------------------------------------------------------------- sorting

  predicate UnreleasedSection(s: ReleaseSection) {
    IsUnreleased(s.Plain())
  }

  predicate ReleasedSection(s: ReleaseSection) {
    IsReleased(s.Plain())
  }

  function ReleaseOrder(a: ReleaseSection, b: ReleaseSection): int {
    CompareSections(a.Plain(), b.Plain())
  }

  lemma PlainJoin(a: seq<ReleaseSection>, b: seq<ReleaseSection>)
    ensures PlainSections(a + b) == PlainSections(a) + PlainSections(b)
  {
    hide ReleaseSection.Plain;
  }

  lemma PlainOne(s: ReleaseSection)
    ensures PlainSections([s]) == [s.Plain()]
  {}

  lemma {:induction false} PlainFilter(ss: seq<ReleaseSection>)
    ensures PlainSections(Filter(UnreleasedSection, ss)) == Filter(IsUnreleased, PlainSections(ss))
    ensures PlainSections(Filter(ReleasedSection, ss)) == Filter(IsReleased, PlainSections(ss))
  {
    hide IsUnreleased, ReleaseSection.Plain, PlainSections, Filter;
    if ss == [] {
      NothingFiltered();
    } else {
      var s, rest := ss[0], ss[1..];
      PlainFilter(rest);
      assert ss == [s] + rest;
      PlainCons(s, rest);
      PlainCons(s, Filter(UnreleasedSection, rest));
      PlainCons(s, Filter(ReleasedSection, rest));
      FilterCons(UnreleasedSection, s, rest);
      FilterCons(ReleasedSection, s, rest);
      FilterCons(IsUnreleased, s.Plain(), PlainSections(rest));
      FilterCons(IsReleased, s.Plain(), PlainSections(rest));
    }
  }

  lemma NothingFiltered()
    ensures PlainSections(Filter(UnreleasedSection, [])) == [] == Filter(IsUnreleased, PlainSections([]))
    ensures PlainSections(Filter(ReleasedSection, [])) == [] == Filter(IsReleased, PlainSections([]))
  {}

  lemma PlainCons(s: ReleaseSection, ss: seq<ReleaseSection>)
    ensures PlainSections([s] + ss) == [s.Plain()] + PlainSections(ss)
  {
    hide ReleaseSection.Plain;
  }

  lemma PlainNone()
    ensures PlainSections([]) == []
  {}

  lemma {:induction false} PlainInsert(x: ReleaseSection, ss: seq<ReleaseSection>)
    ensures PlainSections(InsertBy(ReleaseOrder, x, ss)) == InsertBy(CompareSections, x.Plain(), PlainSections(ss))
  {
    hide CompareSections, ReleaseSection.Plain, PlainSections;
    PlainOne(x);
    if ss == [] {
      PlainNone();
    } else {
      assert ss == [ss[0]] + ss[1..];
      PlainJoin([ss[0]], ss[1..]);
      PlainOne(ss[0]);
      PlainInsert(x, ss[1..]);
      PlainJoin([x], ss);
      PlainJoin([ss[0]], InsertBy(ReleaseOrder, x, ss[1..]));
      var plain := PlainSections(ss);
      assert plain[0] == ss[0].Plain() && plain[1..] == PlainSections(ss[1..]);
    }
  }

  lemma {:induction false} PlainSort(ss: seq<ReleaseSection>)
    ensures PlainSections(SortBy(ReleaseOrder, ss)) == SortBy(CompareSections, PlainSections(ss))
  {
    hide CompareSections, ReleaseSection.Plain, PlainSections;
    if ss == [] {
      PlainNone();
    } else {
      PlainSort(ss[1..]);
      assert ss == [ss[0]] + ss[1..];
      PlainJoin([ss[0]], ss[1..]);
      PlainOne(ss[0]);
      var plain := PlainSections(ss);
      assert plain[0] == ss[0].Plain() && plain[1..] == PlainSections(ss[1..]);
      PlainInsert(ss[0], SortBy(ReleaseOrder, ss[1..]));
    }
  }

  // ------------------------------------------------------------------ printing

  /** The lines of a section below its heading. */
  method PrintSection(section: ReleaseSection) returns (output: Lines)
    ensures output == RenderBody(section.Plain())
  {
    hide TrimBlank, SubsectionHeading;
    output := [];
    var leading := TrimBlankLines(Texts(section.leading));
    if |leading| > 0 {
      output := [""] + leading;
    }
    ghost var front, plain := output, PlainSubs(section.subs);
    assert plain[0..] == plain;
    for j := 0 to |section.subs|
      invariant front + RenderSubs(plain) == output + RenderSubs(plain[j..])
    {
      assert plain[j..][1..] == plain[j + 1..];
      var lines := TrimBlankLines(Texts(section.subs[j].lines));
      if |lines| == 0 {
        assert [] + RenderSubs(plain[j + 1..]) == RenderSubs(plain[j + 1..]);
        continue;
      }
      var block := ["", SubsectionHeading(section.subs[j].title), ""] + lines;
      assert output + (block + RenderSubs(plain[j + 1..])) == output + block + RenderSubs(plain[j + 1..]);
      output := output + block;
    }
    assert plain[|plain|..] == [] && output + [] == output;
  }

  lemma PlainHeadings(ss: seq<ReleaseSection>)
    ensures forall i :: 0 <= i < |ss| ==> PlainSections(ss)[i].heading == ss[i].heading
  {}

  lemma PlainHeading(s: ReleaseSection)
    ensures s.Plain().heading == s.heading
  {}

  /** The sections as they are printed before the trailing empty line is taken off. */
  function SectionBlocks(ss: seq<Section>): Lines {
    if ss == [] then [] else [ss[0].heading] + RenderBody(ss[0]) + [""] + SectionBlocks(ss[1..])
  }

  lemma {:induction false} SectionBlocksAppend(a: seq<Section>, b: seq<Section>)
    ensures SectionBlocks(a + b) == SectionBlocks(a) + SectionBlocks(b)
  {
    hide RenderBody;
    if a == [] {
      assert a + b == b;
    } else {
      assert (a + b)[1..] == a[1..] + b;
      SectionBlocksAppend(a[1..], b);
    }
  }

  lemma SectionBlocksStep(ss: seq<Section>, i: nat)
    requires i < |ss|
    ensures SectionBlocks(ss[..i + 1]) == SectionBlocks(ss[..i]) + ([ss[i].heading] + RenderBody(ss[i]) + [""])
  {
    hide RenderBody;
    assert ss[..i + 1] == ss[..i] + [ss[i]];
    SectionBlocksAppend(ss[..i], [ss[i]]);
    assert [ss[i]][1..] == [];
  }

  lemma {:induction false} BlocksAreSections(ss: seq<Section>)
    ensures SectionBlocks(ss) == if ss == [] then [] else RenderSections(ss) + [""]
  {
    hide RenderBody;
    if ss != [] {
      BlocksAreSections(ss[1..]);
      if |ss| > 1 {
        var head, rest := [ss[0].heading] + RenderBody(ss[0]), RenderSections(ss[1..]);
        assert head + [""] + (rest + [""]) == head + [""] + rest + [""];
        assert [ss[0].heading] + (RenderBody(ss[0]) + [""]) == head + [""];
      }
    }
  }

  ghost predicate EndsFull(ls: Lines) {
    ls != [] ==> ls[|ls| - 1] != ""
  }

  lemma EndJoin(a: Lines, b: Lines)
    requires EndsFull(a) && EndsFull(b)
    ensures EndsFull(a + b)
  {}

  lemma {:induction false} SubsEndFull(subs: seq<Sub>)
    ensures EndsFull(RenderSubs(subs))
  {
    hide TrimBlank, SubsectionHeading, EndsFull;
    if subs == [] {
      NothingEndsFull();
    } else {
      SubsEndFull(subs[1..]);
      TrimmedEndsFull(subs[0].lines);
      var body := TrimBlank(subs[0].lines);
      var block := if body == [] then [] else ["", SubsectionHeading(subs[0].title), ""] + body;
      BlockEndsFull(subs[0].title, body);
      EndJoin(block, RenderSubs(subs[1..]));
    }
  }

  lemma NothingEndsFull()
    ensures EndsFull([])
  {}

  lemma BlockEndsFull(title: string, body: Lines)
    requires EndsFull(body)
    ensures EndsFull(if body == [] then [] else ["", SubsectionHeading(title), ""] + body)
  {
    hide SubsectionHeading;
  }

  lemma TrimmedEndsFull(ls: Lines)
    ensures EndsFull(TrimBlank(ls))
  {
    hide IsBlank, TrimBy;
    TrimIsTrimmed(IsBlank, ls);
    EmptyIsBlank();
  }

  lemma {:induction false} SectionsEndFull(ss: seq<Section>)
    requires forall i :: 0 <= i < |ss| ==> ss[i].heading != ""
    ensures EndsFull(RenderSections(ss)) && (ss != [] ==> RenderSections(ss) != [])
  {
    hide RenderSubs, TrimBlank;
    if ss != [] {
      SectionsEndFull(ss[1..]);
      SubsEndFull(ss[0].subs);
      TrimmedEndsFull(ss[0].leading);
    }
  }

  lemma BlocksArePrinted(d: Doc, output: Lines)
    requires forall i :: 0 <= i < |d.sections| ==> d.sections[i].heading != ""
    requires output == (if TrimBlank(d.prefix) == [] then [] else TrimBlank(d.prefix) + [""]) + SectionBlocks(d.sections)
    ensures EndsFull(RenderLines(d))
    ensures output == RenderLines(d) || (RenderLines(d) != [] && output == RenderLines(d) + [""])
  {
    hide RenderSections, SectionBlocks, TrimBlank;
    BlocksAreSections(d.sections);
    SectionsEndFull(d.sections);
    TrimmedEndsFull(d.prefix);
    NoSectionsPrinted();
    var prefix, rest := TrimBlank(d.prefix), RenderSections(d.sections);
    assert prefix + [] == prefix;
    assert prefix + [""] + (rest + [""]) == prefix + [""] + rest + [""];
    assert [] + (rest + [""]) == [] + rest + [""];
  }

  lemma NoSectionsPrinted()
    ensures RenderSections([]) == []
  {}

  // ----------------------------------------------------------------- gluing it

  lemma PlacedIncreasing(ss: seq<ReleaseSection>, heights: seq<nat>, line: nat)
    requires Placed(ss, heights, line)
    ensures forall i, j :: 0 <= i < |ss| && 0 <= j < |ss[i].subs| ==> Increasing(ss[i].subs[j].lines)
  {
    hide Increasing, From;
    forall i, j | 0 <= i < |ss| && 0 <= j < |ss[i].subs| ensures Increasing(ss[i].subs[j].lines) {
      assert SectionPlaced(ss[i], line + Total(heights[..i]));
      FromIncreasing(ss[i].subs[j].lines, SubLine(PlainSubs(ss[i].subs), line + Total(heights[..i]) + 1 + |ss[i].leading|, j));
    }
  }

  lemma StillPlaced(was: seq<ReleaseSection>, now: seq<ReleaseSection>, heights: seq<nat>, line: nat)
    requires Placed(was, heights, line) && |now| == |was|
    requires forall i :: 0 <= i < |now| && !IsUnreleased(was[i].Plain()) ==> now[i] == was[i]
    requires forall i :: 0 <= i < |now| ==> now[i].heading == was[i].heading
    ensures |heights| == |now|
    ensures forall i :: 0 <= i < |now| && !IsUnreleased(now[i].Plain()) ==> SectionPlaced(now[i], line + Total(heights[..i]))
  {
    hide SectionPlaced, IsUnreleased;
    forall i | 0 <= i < |now| && !IsUnreleased(now[i].Plain()) ensures SectionPlaced(now[i], line + Total(heights[..i])) {
      SameHeadingSameKind(now[i], was[i]);
    }
  }

  lemma FixIs(d: Doc, promotable: set<nat>, historical: set<Lines>)
    ensures |Heights(d.sections)| == |DropDuplicates(d.sections, historical)|
    ensures Fix(d, promotable, historical).prefix == d.prefix
    ensures Fix(d, promotable, historical).sections
         == SortSections(NormalizeSections(Promote(DropDuplicates(d.sections, historical), Heights(d.sections), |d.prefix| + 1, promotable)))
  {
    HeightsLength(d.sections);
    DropLength(d.sections, historical);
  }

  lemma HeadingsThere(content: string, promotable: set<nat>, historical: set<Lines>, sections: seq<ReleaseSection>)
    requires PlainSections(sections) == Fix(Parse(content), promotable, historical).sections
    ensures forall i :: 0 <= i < |sections| ==> sections[i].heading != ""
  {
    hide Fix, Parse;
    ParseOk(content);
    FixOk(Parse(content), promotable, historical);
    forall i | 0 <= i < |sections| ensures sections[i].heading != "" {
      assert SectionOk(PlainSections(sections)[i]);
    }
  }

  lemma PassLength(lines: NumberedLines)
    ensures |Texts(lines)| == |lines|
  {}
}
