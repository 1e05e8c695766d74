/** The changelog fixer as it runs: a document updated in place, one pass after another
    (scripts/fix-changelogs.ts:148-208, 218-232, 303-419, 457-462, 502-580). */
module ChangelogFixer {
  import opened Lists
  import opened Items
  import opened StableSort
  import opened ChangelogText
  import opened ChangelogDocument
  import opened ChangelogFix
  import opened ChangelogItems
  import opened ChangelogLines
  import Text

  datatype Subsection = Subsection(title: string, lines: NumberedLines) {
    function Plain(): Sub { Sub(title, Texts(lines)) }
  }

  function PlainSubs(subs: seq<Subsection>): (r: seq<Sub>)
    ensures |r| == |subs| && forall i :: 0 <= i < |subs| ==> r[i] == subs[i].Plain()
  {
    seq(|subs|, i requires 0 <= i < |subs| => subs[i].Plain())
  }

  datatype ReleaseSection = ReleaseSection(heading: string, leading: NumberedLines, subs: seq<Subsection>) {
    function Plain(): Section { Section(heading, Texts(leading), PlainSubs(subs)) }
  }

  function PlainSections(ss: seq<ReleaseSection>): (r: seq<Section>)
    ensures |r| == |ss| && forall i :: 0 <= i < |ss| ==> r[i] == ss[i].Plain()
  {
    seq(|ss|, i requires 0 <= i < |ss| => ss[i].Plain())
  }

  // ------------------------------------------------------------- compaction

  predicate NotBlank(line: string) {
    !IsBlank(line)
  }

  lemma {:induction false} NonBlankTrimmed(ls: Lines)
    ensures Filter(NotBlank, TrimBlank(ls)) == Filter(NotBlank, ls)
  {
    hide IsBlank, TrimBy;
    var a, b := TrimBounds(IsBlank, ls);
    assert ls == ls[..a] + (ls[a..b] + ls[b..]);
    FilterAppend(NotBlank, ls[..a], ls[a..b] + ls[b..]);
    FilterAppend(NotBlank, ls[a..b], ls[b..]);
    FilterNone(NotBlank, ls[..a]);
    FilterNone(NotBlank, ls[b..]);
    assert [] + (Filter(NotBlank, ls[a..b]) + []) == Filter(NotBlank, ls[a..b]);
  }

  lemma {:induction false} NonBlankItems(cs: seq<Lines>)
    ensures Filter(NotBlank, Flatten(TrimEach(IsBlank, cs))) == Filter(NotBlank, Flatten(cs))
  {
    hide TrimBy, IsBlank;
    if cs != [] {
      NonBlankItems(cs[1..]);
      NonBlankTrimmed(cs[0]);
      FilterAppend(NotBlank, TrimBlank(cs[0]), Flatten(TrimEach(IsBlank, cs[1..])));
      FilterAppend(NotBlank, cs[0], Flatten(cs[1..]));
      assert TrimEach(IsBlank, cs)[1..] == TrimEach(IsBlank, cs[1..]);
    }
  }

  /** The check on visible lines finds out whether a trimmed body starts with an item. */
  lemma SameVisibleLines(t: Lines)
    requires t != [] && Trimmed(IsBlank, t)
    ensures Filter(NotBlank, t) == Filter(NotBlank, Flatten(Bullets(t))) <==> IsBullet(t[0])
  {
    hide IsBullet, TrimBy, IsBlank;
    CutParts(IsBullet, t);
    var pre, cs := Preamble(IsBullet, t), Cut(IsBullet, t);
    FilterAppend(NotBlank, pre, Flatten(cs));
    NonBlankItems(cs);
    if IsBullet(t[0]) {
      HeadMarked(IsBullet, t);
      assert Filter(NotBlank, pre) == [];
      assert [] + Filter(NotBlank, Flatten(cs)) == Filter(NotBlank, Flatten(cs));
    } else {
      assert pre != [] && pre[0] == t[0];
      assert t[0] in Filter(NotBlank, pre);
      assert |Filter(NotBlank, pre)| > 0;
    }
  }

  method NonBlank(lines: Lines) returns (r: Lines)
    ensures r == Filter(NotBlank, lines)
  {
    hide NotBlank, Filter;
    r := [];
    FilterStart(lines);
    for i := 0 to |lines|
      invariant r + Filter(NotBlank, lines[i..]) == Filter(NotBlank, lines)
    {
      FilterStep(NotBlank, lines, i, r);
      if NotBlank(lines[i]) {
        r := r + [lines[i]];
      }
    }
    assert r + [] == r;
  }

  lemma FilterStart(lines: Lines)
    ensures lines[0..] == lines && [] + Filter(NotBlank, lines) == Filter(NotBlank, lines) && Filter(NotBlank, lines[|lines|..]) == []
  {}

  method FlatLines(items: seq<ParsedItem>) returns (r: Lines)
    ensures r == Flatten(LinesOf(items))
  {
    r := [];
    assert items[..0] == [];
    for i := 0 to |items|
      invariant r == Flatten(LinesOf(items[..i]))
    {
      assert LinesOf(items[..i + 1]) == LinesOf(items[..i]) + [items[i].lines];
      FlattenAppend(LinesOf(items[..i]), [items[i].lines]);
      assert Flatten([items[i].lines]) == items[i].lines;
      r := r + items[i].lines;
    }
    assert items[..|items|] == items;
  }

  function LinesOf(items: seq<ParsedItem>): (r: seq<Lines>)
    ensures |r| == |items| && forall i :: 0 <= i < |items| ==> r[i] == items[i].lines
  {
    seq(|items|, i requires 0 <= i < |items| => items[i].lines)
  }

  /** `compactAdjacentListSpacing` */
  method CompactAdjacentListSpacing(lines: Lines) returns (r: Lines)
    ensures r == CompactLines(lines)
  {
    hide IsBullet, IsBlank, TrimBy, ItemsIn, Bullets;
    var trimmedLines := TrimBlankLines(lines);
    TrimIsTrimmed(IsBlank, lines);
    if |trimmedLines| == 0 {
      return [];
    }
    var parsedItems := ParseItems(Synthetic(trimmedLines));
    ItemTexts(Synthetic(trimmedLines));
    assert LinesOf(parsedItems) == Bullets(trimmedLines);
    SameVisibleLines(trimmedLines);
    CompactIs(lines);
    if |parsedItems| == 0 {
      return trimmedLines;
    }
    var flattenedItems := FlatLines(parsedItems);
    var nonBlankOriginal := NonBlank(trimmedLines);
    var nonBlankFlattened := NonBlank(flattenedItems);
    if nonBlankOriginal != nonBlankFlattened {
      return trimmedLines;
    }
    return flattenedItems;
  }

  lemma CompactIs(lines: Lines)
    ensures var t := TrimBlank(lines);
      && (t != [] && IsBullet(t[0]) ==> Bullets(t) != [] && CompactLines(lines) == Flatten(Bullets(t)))
      && (t == [] || !IsBullet(t[0]) ==> CompactLines(lines) == t)
  {
    hide IsBullet, IsBlank, TrimBy;
    var t := TrimBlank(lines);
    if t != [] && IsBullet(t[0]) {
      HeadMarked(IsBullet, t);
    }
  }

  // ---------------------------------------------------------------- sections

  /** `appendSubsectionLines` */
  method AppendSubsectionLines(target: Subsection, sourceLines: Lines) returns (r: Subsection)
    ensures r.Plain() == Sub(target.title, AppendLines(Texts(target.lines), sourceLines))
    ensures TrimBlank(sourceLines) == [] ==> r == target
  {
    hide IsBullet, TrimBlank;
    var trimmedSource := TrimBlankLines(sourceLines);
    if |trimmedSource| == 0 {
      return target;
    }
    var existing := TrimBlankLines(Texts(target.lines));
    if |existing| == 0 {
      return target.(lines := Synthetic(trimmedSource));
    }
    var separator := if IsBullet(existing[|existing| - 1]) && IsBullet(trimmedSource[0]) then [] else [""];
    return target.(lines := Synthetic(existing + separator + trimmedSource));
  }

  /** Where the table of titles points is where the title first stands. */
  ghost predicate Indexed(byTitle: map<string, nat>, subs: seq<Subsection>) {
    && (forall title :: title in byTitle ==> byTitle[title] == Find(PlainSubs(subs), title) < |subs|)
    && (forall title :: title !in byTitle ==> Find(PlainSubs(subs), title) == |subs|)
  }

  lemma {:induction false} FindAppend(subs: seq<Sub>, s: Sub, title: string)
    ensures Find(subs + [s], title) == if Find(subs, title) < |subs| then Find(subs, title) else if s.title == title then |subs| else |subs| + 1
  {
    if subs == [] {
      assert subs + [s] == [s];
      assert [s][1..] == [];
    } else {
      assert (subs + [s])[1..] == subs[1..] + [s];
      FindAppend(subs[1..], s, title);
    }
  }

  lemma {:induction false} FindUpdate(subs: seq<Sub>, k: nat, s: Sub, title: string)
    requires k < |subs| && s.title == subs[k].title
    ensures Find(subs[k := s], title) == Find(subs, title)
  {
    if k > 0 {
      assert subs[k := s][1..] == subs[1..][k - 1 := s];
      FindUpdate(subs[1..], k - 1, s, title);
    } else {
      assert subs[k := s][1..] == subs[1..];
    }
  }

  /** `normalizeSection` */
  method Normalize(section: ReleaseSection) returns (r: ReleaseSection)
    ensures r.Plain() == NormalizeSection(section.Plain())
  {
    hide CompactLines, AppendLines, Find, TrimBlank, IsUnreleased, Indexed;
    var subsectionByTitle: map<string, nat> := map[];
    var normalized: seq<Subsection> := [];
    NothingIndexed();
    for i := 0 to |section.subs|
      invariant Indexed(subsectionByTitle, normalized)
      invariant MergeSubs(PlainSubs(normalized), PlainSubs(section.subs)[i..]) == MergeSubs([], PlainSubs(section.subs))
    {
      var subsection := section.subs[i];
      ghost var before := PlainSubs(normalized);
      MergeNext(before, PlainSubs(section.subs), i);
      var trimmed := TrimBlankLines(Texts(subsection.lines));
      var trimmedLines := CompactAdjacentListSpacing(trimmed);
      CompactTrims(Texts(subsection.lines));
      IndexedMeans(subsectionByTitle, normalized, subsection.title);
      if |trimmedLines| == 0 {
        continue;
      }
      if subsection.title in subsectionByTitle {
        var k := subsectionByTitle[subsection.title];
        var merged := AppendSubsectionLines(normalized[k], trimmedLines);
        IndexedUpdate(subsectionByTitle, normalized, k, merged);
        normalized := normalized[k := merged];
        assert PlainSubs(normalized) == before[k := merged.Plain()];
        continue;
      }
      var created := Subsection(subsection.title, Synthetic(trimmedLines));
      IndexedAppend(subsectionByTitle, normalized, created);
      subsectionByTitle := subsectionByTitle[subsection.title := |normalized|];
      normalized := normalized + [created];
      assert PlainSubs(normalized) == before + [created.Plain()];
    }
    MergeEnd(PlainSubs(normalized), PlainSubs(section.subs));
    if IsUnreleased(section.Plain()) {
      SortPlain(normalized);
      normalized := SortSubs(normalized);
    }
    var leading := TrimBlankLines(Texts(section.leading));
    r := ReleaseSection(section.heading, Synthetic(leading), normalized);
  }

  lemma NothingIndexed()
    ensures Indexed(map[], []) && PlainSubs([]) == []
  {}

  lemma MergeNext(acc: seq<Sub>, subs: seq<Sub>, i: nat)
    requires i < |subs|
    ensures MergeSubs(acc, subs[i..]) == MergeSubs(MergeSub(acc, subs[i]), subs[i + 1..])
  {
    hide MergeSub;
    assert subs[i..][1..] == subs[i + 1..];
  }

  lemma MergeEnd(acc: seq<Sub>, subs: seq<Sub>)
    ensures MergeSubs(acc, subs[|subs|..]) == acc
  {
    assert subs[|subs|..] == [];
  }

  lemma CompactTrims(ls: Lines)
    ensures CompactLines(TrimBlank(ls)) == CompactLines(ls)
  {
    CompactTrim(IsBullet, IsBlank, ls);
  }

  lemma IndexedMeans(byTitle: map<string, nat>, subs: seq<Subsection>, title: string)
    requires Indexed(byTitle, subs)
    ensures Find(PlainSubs(subs), title) == (if title in byTitle then byTitle[title] else |subs|)
    ensures title in byTitle ==> byTitle[title] < |subs| && subs[byTitle[title]].title == title
  {}

  lemma IndexedUpdate(byTitle: map<string, nat>, subs: seq<Subsection>, k: nat, s: Subsection)
    requires Indexed(byTitle, subs) && k < |subs| && s.title == subs[k].title
    ensures Indexed(byTitle, subs[k := s])
  {
    hide Find;
    assert PlainSubs(subs[k := s]) == PlainSubs(subs)[k := s.Plain()];
    forall title ensures Find(PlainSubs(subs[k := s]), title) == Find(PlainSubs(subs), title) {
      FindUpdate(PlainSubs(subs), k, s.Plain(), title);
    }
  }

  lemma IndexedAppend(byTitle: map<string, nat>, subs: seq<Subsection>, s: Subsection)
    requires Indexed(byTitle, subs) && s.title !in byTitle
    ensures Indexed(byTitle[s.title := |subs|], subs + [s])
  {
    hide Find;
    assert PlainSubs(subs + [s]) == PlainSubs(subs) + [s.Plain()];
    forall title ensures Find(PlainSubs(subs + [s]), title)
      == if title == s.title then |subs| else if title in byTitle then byTitle[title] else |subs| + 1
    {
      FindAppend(PlainSubs(subs), s.Plain(), title);
    }
  }

  function SubOrder(a: Subsection, b: Subsection): int {
    TitleOrder(a.Plain(), b.Plain())
  }

  function SortSubs(subs: seq<Subsection>): seq<Subsection> {
    SortBy(SubOrder, subs)
  }

  lemma PlainSubsCons(x: Subsection, subs: seq<Subsection>)
    ensures PlainSubs([x] + subs) == [x.Plain()] + PlainSubs(subs)
  {
    hide Subsection.Plain;
  }

  lemma {:induction false} InsertPlain(x: Subsection, subs: seq<Subsection>)
    ensures PlainSubs(InsertBy(SubOrder, x, subs)) == InsertBy(TitleOrder, x.Plain(), PlainSubs(subs))
  {
    hide TitleOrder, Subsection.Plain, PlainSubs;
    if subs == [] {
      PlainSubsCons(x, []);
      NoPlainSubs();
    } else {
      assert subs == [subs[0]] + subs[1..];
      PlainSubsCons(subs[0], subs[1..]);
      InsertPlain(x, subs[1..]);
      PlainSubsCons(x, subs);
      PlainSubsCons(subs[0], InsertBy(SubOrder, x, subs[1..]));
    }
  }

  lemma NoPlainSubs()
    ensures PlainSubs([]) == []
  {}

  lemma {:induction false} SortPlain(subs: seq<Subsection>)
    ensures PlainSubs(SortSubs(subs)) == SortBy(TitleOrder, PlainSubs(subs))
  {
    hide TitleOrder, Subsection.Plain, PlainSubs;
    if subs == [] {
      NoPlainSubs();
    } else {
      SortPlain(subs[1..]);
      assert subs == [subs[0]] + subs[1..];
      PlainSubsCons(subs[0], subs[1..]);
      InsertPlain(subs[0], SortSubs(subs[1..]));
    }
  }

  // ----------------------------------------------------------------- parsing

  predicate ReleaseAt(l: NumberedLine) {
    IsReleaseHeading(l.text)
  }

  predicate SubsectionAt(l: NumberedLine) {
    IsSubsectionHeading(l.text)
  }

  /** The first line from `start` on that is marked, or the end. */
  method Until(m: NumberedLine -> bool, lines: NumberedLines, start: nat) returns (index: nat)
    requires start <= |lines|
    ensures start <= index <= |lines| && Lacks(m, lines[start..index]) && (index < |lines| ==> m(lines[index]))
  {
    index := start;
    NothingLacks(m, lines, start);
    while index < |lines| && !m(lines[index])
      invariant start <= index <= |lines| && Lacks(m, lines[start..index])
    {
      LacksMore(m, lines, start, index);
      index := index + 1;
    }
  }

  lemma AheadUntil(m: NumberedLine -> bool, mark: string -> bool, lines: NumberedLines, start: nat, index: nat)
    requires start <= index <= |lines| && Lacks(m, lines[start..index]) && (index < |lines| ==> m(lines[index]))
    requires forall i :: 0 <= i < |lines| ==> m(lines[i]) == mark(lines[i].text)
    ensures var rest := Texts(lines[start..]); Ahead(mark, rest) == index - start && rest[..index - start] == Texts(lines[start..index]) && rest[index - start..] == Texts(lines[index..])
  {
    var pre, rest := Texts(lines[start..index]), Texts(lines[index..]);
    forall i | 0 <= i < |pre| ensures !mark(pre[i]) {
      assert pre[i] == lines[start..index][i].text && lines[start..index][i] == lines[start + i];
    }
    assert Texts(lines[start..]) == pre + rest;
    AheadIs(mark, pre, rest);
  }

  /** The lines are numbered consecutively from `first`. */
  ghost predicate From(lines: NumberedLines, first: nat) {
    lines == Numbered(Texts(lines), first)
  }

  lemma FromSlice(lines: NumberedLines, first: nat, a: nat, b: nat)
    requires From(lines, first) && a <= b <= |lines|
    ensures From(lines[a..b], first + a)
  {
    var part := lines[a..b];
    forall i | 0 <= i < b - a ensures part[i] == Numbered(Texts(part), first + a)[i] {
      assert lines[a + i] == Numbered(Texts(lines), first)[a + i];
    }
  }

  lemma FromIncreasing(lines: NumberedLines, first: nat)
    requires From(lines, first)
    ensures Increasing(lines)
  {
    forall i, j | 0 <= i < j < |lines| ensures lines[i].lineNumber < lines[j].lineNumber {
      assert lines[i] == Numbered(Texts(lines), first)[i] && lines[j] == Numbered(Texts(lines), first)[j];
    }
  }

  /** Each subsection has the line numbers it has in the text, when the first heading is at `line`. */
  ghost predicate SubsPlaced(subs: seq<Subsection>, line: nat) {
    forall j :: 0 <= j < |subs| ==> From(subs[j].lines, SubLine(PlainSubs(subs), line, j))
  }

  lemma {:induction false} SubLineAppend(subs: seq<Sub>, s: Sub, line: nat, j: nat)
    requires j <= |subs|
    ensures SubLine(subs + [s], line, j) == if j < |subs| then SubLine(subs, line, j) else line + SubsHeight(subs) + 1
  {
    if subs != [] {
      assert (subs + [s])[1..] == subs[1..] + [s];
      if j > 0 {
        SubLineAppend(subs[1..], s, line + 1 + |subs[0].lines|, j - 1);
      }
    }
  }

  lemma {:induction false} SubsHeightAppend(subs: seq<Sub>, s: Sub)
    ensures SubsHeight(subs + [s]) == SubsHeight(subs) + 1 + |s.lines|
  {
    if subs == [] {
      assert subs + [s] == [s] && [s][1..] == [];
    } else {
      assert (subs + [s])[1..] == subs[1..] + [s];
      SubsHeightAppend(subs[1..], s);
    }
  }

  lemma PlacedAppend(subs: seq<Subsection>, s: Subsection, line: nat)
    requires SubsPlaced(subs, line) && From(s.lines, line + SubsHeight(PlainSubs(subs)) + 1)
    ensures SubsPlaced(subs + [s], line)
    ensures SubsHeight(PlainSubs(subs + [s])) == SubsHeight(PlainSubs(subs)) + 1 + |s.lines|
  {
    hide From, Subsection.Plain;
    PlainSubsAppend(subs, s);
    SubsHeightAppend(PlainSubs(subs), s.Plain());
    PlainHeight(s);
    forall j | 0 <= j < |subs + [s]| ensures From((subs + [s])[j].lines, SubLine(PlainSubs(subs + [s]), line, j)) {
      SubLineAppend(PlainSubs(subs), s.Plain(), line, j);
    }
  }

  lemma PlainHeight(s: Subsection)
    ensures |s.Plain().lines| == |s.lines|
  {}

  /** One step of the subsection loop. */
  lemma ParseStep(body: NumberedLines, index: nat, end: nat, subs: seq<Subsection>, sub: Subsection)
    requires index < end <= |body| && SubsectionAt(body[index]) && Lacks(SubsectionAt, body[index + 1..end]) && (end < |body| ==> SubsectionAt(body[end]))
    requires sub == Subsection(SubsectionTitle(body[index].text), body[index + 1..end])
    ensures Texts(body[end..]) == [] || IsSubsectionHeading(Texts(body[end..])[0])
    ensures Texts(body[index..]) != [] && IsSubsectionHeading(Texts(body[index..])[0])
    ensures PlainSubs(subs) + ParseSubs(Texts(body[index..])) == PlainSubs(subs + [sub]) + ParseSubs(Texts(body[end..]))
  {
    hide IsSubsectionHeading, SubsectionTitle, Lacks, Texts, PlainSubs, ParseSubs;
    TextsOfStep(body, index, end);
    var lines, rest := Texts(body[index + 1..end]), Texts(body[end..]);
    ParseSubsStep(body[index].text, lines, rest);
    PlainSubsAppend(subs, sub);
    assert PlainSubs(subs) + ([sub.Plain()] + ParseSubs(rest)) == PlainSubs(subs) + [sub.Plain()] + ParseSubs(rest);
  }

  lemma TextsOfStep(body: NumberedLines, index: nat, end: nat)
    requires index < end <= |body| && SubsectionAt(body[index]) && Lacks(SubsectionAt, body[index + 1..end]) && (end < |body| ==> SubsectionAt(body[end]))
    ensures Texts(body[index..]) == [body[index].text] + (Texts(body[index + 1..end]) + Texts(body[end..]))
    ensures IsSubsectionHeading(body[index].text) && Lacks(IsSubsectionHeading, Texts(body[index + 1..end]))
    ensures Texts(body[end..]) == [] || IsSubsectionHeading(Texts(body[end..])[0])
  {
    hide IsSubsectionHeading;
    assert body[index..] == [body[index]] + (body[index + 1..end] + body[end..]);
    TextsAppend([body[index]], body[index + 1..end] + body[end..]);
    TextsAppend(body[index + 1..end], body[end..]);
    assert Texts([body[index]]) == [body[index].text];
  }

  /** The loop over the subsections of a body, from the first heading on. */
  method ParseSubsections(body: NumberedLines, start: nat, ghost first: nat) returns (subs: seq<Subsection>)
    requires start <= |body| && (start < |body| ==> SubsectionAt(body[start])) && From(body, first)
    ensures Texts(body[start..]) == [] || IsSubsectionHeading(Texts(body[start..])[0])
    ensures PlainSubs(subs) == ParseSubs(Texts(body[start..])) && SubsPlaced(subs, first + start)
  {
    hide SubsectionAt, IsSubsectionHeading, SubsectionTitle, Lacks, From, SubsPlaced, ParseSubs, PlainSubs, Texts;
    var index := start;
    subs := [];
    ghost var all := Texts(body[start..]);
    NothingParsed(body, start, first + start);
    while index < |body|
      invariant start <= index <= |body| && (index < |body| ==> SubsectionAt(body[index]))
      invariant all == [] || IsSubsectionHeading(all[0])
      invariant Texts(body[index..]) == [] || IsSubsectionHeading(Texts(body[index..])[0])
      invariant PlainSubs(subs) + ParseSubs(Texts(body[index..])) == ParseSubs(all)
      invariant SubsPlaced(subs, first + start) && start + SubsHeight(PlainSubs(subs)) == index
    {
      var headingLine := body[index];
      var end := Until(SubsectionAt, body, index + 1);
      var sub := Subsection(SubsectionTitle(headingLine.text), body[index + 1..end]);
      ParseStep(body, index, end, subs, sub);
      FromSlice(body, first, index + 1, end);
      PlacedAppend(subs, sub, first + start);
      subs := subs + [sub];
      index := end;
    }
    EverythingParsed(body, subs);
  }

  lemma NothingParsed(body: NumberedLines, start: nat, line: nat)
    requires start <= |body| && (start < |body| ==> SubsectionAt(body[start]))
    ensures Texts(body[start..]) == [] || IsSubsectionHeading(Texts(body[start..])[0])
    ensures PlainSubs([]) + ParseSubs(Texts(body[start..])) == ParseSubs(Texts(body[start..]))
    ensures SubsPlaced([], line) && SubsHeight(PlainSubs([])) == 0
  {
    hide IsSubsectionHeading;
  }

  lemma EverythingParsed(body: NumberedLines, subs: seq<Subsection>)
    ensures Texts(body[|body|..]) == [] && PlainSubs(subs) + ParseSubs([]) == PlainSubs(subs)
  {}

  /** Its subsections have the numbers they have in the text, when its heading is at `line`. */
  ghost predicate SectionPlaced(s: ReleaseSection, line: nat) {
    SubsPlaced(s.subs, line + 1 + |s.leading|)
  }

  /** `parseReleaseSection` */
  method ParseReleaseSection(heading: string, body: NumberedLines, ghost line: nat) returns (section: ReleaseSection)
    requires From(body, line + 1)
    ensures section.Plain() == ParseSection(heading, Texts(body)) && SectionPlaced(section, line)
  {
    hide IsSubsectionHeading, SubsectionTitle, Lacks, From, SubsPlaced, ParseSubs, PlainSubs;
    var index := Until(SubsectionAt, body, 0);
    AheadUntil(SubsectionAt, IsSubsectionHeading, body, 0, index);
    assert body[0..] == body && body[0..index] == body[..index];
    var subs := ParseSubsections(body, index, line + 1);
    section := ReleaseSection(heading, body[..index], subs);
  }

  lemma PlainSubsAppend(subs: seq<Subsection>, s: Subsection)
    ensures PlainSubs(subs + [s]) == PlainSubs(subs) + [s.Plain()]
  {
    hide Subsection.Plain;
  }
}
