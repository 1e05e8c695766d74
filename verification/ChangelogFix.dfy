/** What one pass of the changelog fixer does to a document
    (scripts/fix-changelogs.ts:218-232, 272-419, 449-462, 531-580). */
module ChangelogFix {
  import opened Basics
  import opened Lists
  import opened Items
  import opened StableSort
  import opened ChangelogText
  import opened ChangelogDocument
  import Text

  /** The items of a body. An item stands for its key: joining clean lines loses nothing. */
  function Bullets(ls: Lines): seq<Lines> {
    ItemsOf(IsBullet, IsBlank, ls)
  }

  /** Distinct items have distinct keys. */
  lemma KeyIsFaithful(a: Lines, b: Lines)
    requires a != [] && b != [] && Every(Clean, a) && Every(Clean, b)
    ensures Join(a) == Join(b) <==> a == b
  {
    SplitJoin(a);
    SplitJoin(b);
  }

  function CompactLines(ls: Lines): Lines {
    Compact(IsBullet, IsBlank, ls)
  }

  /** `appendSubsectionLines` */
  function AppendLines(target: Lines, source: Lines): Lines {
    var more, existing := TrimBlank(source), TrimBlank(target);
    if more == [] then target
    else if existing == [] then more
    else existing + (if IsBullet(existing[|existing| - 1]) && IsBullet(more[0]) then [] else [""]) + more
  }

  // ---------------------------------------------------------- normalization

  /** Where `title` first stands in `subs`, or its length. */
  function Find(subs: seq<Sub>, title: string): (k: nat)
    ensures k <= |subs| && (k < |subs| ==> subs[k].title == title)
    ensures forall i :: 0 <= i < k ==> subs[i].title != title
  {
    if subs == [] || subs[0].title == title then 0 else 1 + Find(subs[1..], title)
  }

  /** One subsection after those already normalized. */
  function MergeSub(acc: seq<Sub>, s: Sub): seq<Sub> {
    var lines := CompactLines(s.lines);
    var k := Find(acc, s.title);
    if lines == [] then acc
    else if k < |acc| then acc[k := Sub(s.title, AppendLines(acc[k].lines, lines))]
    else acc + [Sub(s.title, lines)]
  }

  function MergeSubs(acc: seq<Sub>, subs: seq<Sub>): seq<Sub>
    decreases |subs|
  {
    if subs == [] then acc else MergeSubs(MergeSub(acc, subs[0]), subs[1..])
  }

  const ORDERED_TITLES := ["Breaking Changes", "Added", "Changed", "Fixed", "Removed"]

  function IndexOf(titles: seq<string>, title: string): nat {
    if titles == [] || titles[0] == title then 0 else 1 + IndexOf(titles[1..], title)
  }

  /** `titleOrder`: a title without a fixed place comes last. */
  function TitleOrder(a: Sub, b: Sub): int {
    IndexOf(ORDERED_TITLES, a.title) - IndexOf(ORDERED_TITLES, b.title)
  }

  predicate IsUnreleased(s: Section) {
    s.Title() == UNRELEASED
  }

  predicate IsReleased(s: Section) {
    !IsUnreleased(s)
  }

  /** `normalizeSection` */
  function NormalizeSection(s: Section): Section {
    var subs := MergeSubs([], s.subs);
    Section(s.heading, TrimBlank(s.leading), if IsUnreleased(s) then SortBy(TitleOrder, subs) else subs)
  }

  function NormalizeSections(ss: seq<Section>): seq<Section> {
    if ss == [] then [] else [NormalizeSection(ss[0])] + NormalizeSections(ss[1..])
  }

  // ------------------------------------------------------------ version order

  function DigitsAhead(s: string): (k: nat)
    ensures k <= |s| && forall i :: 0 <= i < k ==> '0' <= s[i] <= '9'
  {
    if s == [] || !('0' <= s[0] <= '9') then 0 else 1 + DigitsAhead(s[1..])
  }

  function Value(digits: string): int
    requires forall i :: 0 <= i < |digits| ==> '0' <= digits[i] <= '9'
  {
    if digits == [] then 0 else Value(digits[..|digits| - 1]) * 10 + (digits[|digits| - 1] - '0') as int
  }

  /** `Number.parseInt(part, 10)`, with `None` for NaN */
  function ParseInt(part: string): Option<int> {
    var s := Text.TrimStart(part);
    var signed := s != [] && (s[0] == '-' || s[0] == '+');
    var body := if signed then s[1..] else s;
    var k := DigitsAhead(body);
    if k == 0 then None else Some(if signed && s[0] == '-' then -Value(body[..k]) else Value(body[..k]))
  }

  function ParseParts(parts: seq<string>): seq<Option<int>> {
    if parts == [] then [] else [ParseInt(parts[0])] + ParseParts(parts[1..])
  }

  function VersionParts(title: string): seq<Option<int>> {
    ParseParts(SplitAt('.', title))
  }

  function HeadOr(parts: seq<Option<int>>): Option<int> {
    if parts == [] then Some(0) else parts[0]
  }

  function TailOr(parts: seq<Option<int>>): seq<Option<int>> {
    if parts == [] then [] else parts[1..]
  }

  /** `compareVersionTitlesDesc`: newest first, missing parts as zero. A comparison that meets
      NaN returns NaN, which sorting takes for 0. */
  function CompareParts(left: seq<Option<int>>, right: seq<Option<int>>): int
    decreases |left| + |right|
  {
    if left == [] && right == [] then 0
    else
      var l, r := HeadOr(left), HeadOr(right);
      if l.None? || r.None? then 0
      else if r.value != l.value then r.value - l.value
      else CompareParts(TailOr(left), TailOr(right))
  }

  function CompareSections(a: Section, b: Section): int {
    CompareParts(VersionParts(a.Title()), VersionParts(b.Title()))
  }

  predicate AllNumbers(parts: seq<Option<int>>) {
    forall i :: 0 <= i < |parts| ==> parts[i].Some?
  }

  /** Every dot-separated part of the title begins with a number. */
  predicate Numeric(s: Section) {
    AllNumbers(VersionParts(s.Title()))
  }

  /** `sortReleaseSections` */
  function SortSections(ss: seq<Section>): seq<Section> {
    Filter(IsUnreleased, ss) + SortBy(CompareSections, Filter(IsReleased, ss))
  }

  // --------------------------------------------------- duplicates of releases

  function ToSet(bs: seq<Lines>): (r: set<Lines>)
    ensures forall b :: b in r <==> b in bs
  {
    set b | b in bs
  }

  function SubsBullets(subs: seq<Sub>): set<Lines> {
    if subs == [] then {} else ToSet(Bullets(subs[0].lines)) + SubsBullets(subs[1..])
  }

  function SectionsBullets(ss: seq<Section>): set<Lines> {
    if ss == [] then {} else SubsBullets(ss[0].subs) + SectionsBullets(ss[1..])
  }

  /** Every item anywhere in the document. */
  function DocBullets(d: Doc): set<Lines> {
    SectionsBullets(d.sections)
  }

  /** `collectReleasedItemKeys` */
  function ReleasedBullets(ss: seq<Section>): set<Lines> {
    SectionsBullets(Filter(IsReleased, ss))
  }

  function KeepChunks(cs: seq<Lines>, keys: set<Lines>): seq<Lines> {
    if cs == [] then []
    else (if TrimBlank(cs[0]) in keys then [] else [cs[0]]) + KeepChunks(cs[1..], keys)
  }

  /** A body without the items in `keys`. */
  function DropItems(ls: Lines, keys: set<Lines>): Lines {
    Preamble(IsBullet, ls) + Flatten(KeepChunks(Cut(IsBullet, ls), keys))
  }

  function DropSubs(subs: seq<Sub>, keys: set<Lines>): seq<Sub> {
    if subs == [] then []
    else [Sub(subs[0].title, DropItems(subs[0].lines, keys))] + DropSubs(subs[1..], keys)
  }

  /** Where the first Unreleased section stands, or the number of sections. */
  function FirstUnreleased(ss: seq<Section>): (k: nat)
    ensures k <= |ss|
  {
    Ahead(IsUnreleased, ss)
  }

  /** `dropUnreleasedDuplicatesOfReleased` */
  function DropDuplicates(ss: seq<Section>, historical: set<Lines>): seq<Section> {
    var k := FirstUnreleased(ss);
    if k == |ss| then ss
    else ss[k := ss[k].(subs := DropSubs(ss[k].subs, ReleasedBullets(ss) + historical))]
  }

  // ---------------------------------------------------------------- promotion

  /** The chunks whose first line, counting from `line`, is not promotable. */
  function Kept(cs: seq<Lines>, line: nat, promotable: set<nat>): seq<Lines> {
    if cs == [] then []
    else (if line in promotable then [] else [cs[0]]) + Kept(cs[1..], line + |cs[0]|, promotable)
  }

  /** The items whose first line is promotable. */
  function Moved(cs: seq<Lines>, line: nat, promotable: set<nat>): seq<Lines> {
    if cs == [] then []
    else (if line in promotable then [TrimBlank(cs[0])] else []) + Moved(cs[1..], line + |cs[0]|, promotable)
  }

  /** Where `title` last stands in `subs`, or its length: `findLast`. */
  function FindLast(subs: seq<Sub>, title: string): (k: nat)
    ensures k <= |subs| && (k < |subs| ==> subs[k].title == title)
    ensures forall i :: 0 <= i < |subs| && (k == |subs| || k < i) ==> subs[i].title != title
    decreases |subs|
  {
    if subs == [] then 0
    else if subs[|subs| - 1].title == title then |subs| - 1
    else
      var k := FindLast(subs[..|subs| - 1], title);
      if k == |subs| - 1 then |subs| else k
  }

  /** Appends the items the body does not have yet. */
  function AddItems(ls: Lines, items: seq<Lines>): Lines
    decreases |items|
  {
    if items == [] then ls
    else AddItems(if items[0] in Bullets(ls) then ls else AppendLines(ls, items[0]), items[1..])
  }

  /** `getOrCreateSubsection` and the appending loop. */
  function AddToSection(u: Section, title: string, items: seq<Lines>): Section {
    var k := FindLast(u.subs, title);
    if items == [] then u
    else if k < |u.subs| then u.(subs := u.subs[k := Sub(title, AddItems(u.subs[k].lines, items))])
    else u.(subs := u.subs + [Sub(title, AddItems([], items))])
  }

  /** The promotable items of one released subsection, and what stays of it. */
  function PromoteSubs(u: Section, subs: seq<Sub>, line: nat, promotable: set<nat>): (Section, seq<Sub>)
    decreases |subs|
  {
    if subs == [] then (u, [])
    else
      var ls := subs[0].lines;
      var first := line + 1 + |Preamble(IsBullet, ls)|;
      var cs := Cut(IsBullet, ls);
      var u1 := AddToSection(u, subs[0].title, Moved(cs, first, promotable));
      var s := Sub(subs[0].title, Preamble(IsBullet, ls) + Flatten(Kept(cs, first, promotable)));
      var (u2, rest) := PromoteSubs(u1, subs[1..], line + 1 + |ls|, promotable);
      (u2, [s] + rest)
  }

  function SubsHeight(subs: seq<Sub>): nat {
    if subs == [] then 0 else 1 + |subs[0].lines| + SubsHeight(subs[1..])
  }

  function Height(s: Section): nat {
    1 + |s.leading| + SubsHeight(s.subs)
  }

  function Heights(ss: seq<Section>): seq<nat> {
    if ss == [] then [] else [Height(ss[0])] + Heights(ss[1..])
  }

  /** Promotes out of each released section. `line` numbers the heading of the first section;
      `heights` says how many lines each section had when the text was read. */
  function PromoteSections(u: Section, ss: seq<Section>, heights: seq<nat>, line: nat, promotable: set<nat>): (Section, seq<Section>)
    requires |heights| == |ss|
    decreases |ss|
  {
    if ss == [] then (u, [])
    else
      var (u1, subs) := if IsUnreleased(ss[0]) then (u, ss[0].subs) else PromoteSubs(u, ss[0].subs, line + 1 + |ss[0].leading|, promotable);
      var (u2, rest) := PromoteSections(u1, ss[1..], heights[1..], line + heights[0], promotable);
      (u2, [ss[0].(subs := subs)] + rest)
  }

  const NO_UNRELEASED := Section(UNRELEASED_HEADING, [], [])

  lemma {:induction false} PromoteSectionsLength(u: Section, ss: seq<Section>, heights: seq<nat>, line: nat, promotable: set<nat>)
    requires |heights| == |ss|
    ensures |PromoteSections(u, ss, heights, line, promotable).1| == |ss|
    decreases |ss|
  {
    if ss != [] {
      var (u1, subs) := if IsUnreleased(ss[0]) then (u, ss[0].subs) else PromoteSubs(u, ss[0].subs, line + 1 + |ss[0].leading|, promotable);
      PromoteSectionsLength(u1, ss[1..], heights[1..], line + heights[0], promotable);
    }
  }

  /** Moves promotable items to the Unreleased section, making one in front if there is none. */
  function Promote(ss: seq<Section>, heights: seq<nat>, line: nat, promotable: set<nat>): seq<Section>
    requires |heights| == |ss|
  {
    var k := FirstUnreleased(ss);
    var (u, rest) := PromoteSections(if k < |ss| then ss[k] else NO_UNRELEASED, ss, heights, line, promotable);
    PromoteSectionsLength(if k < |ss| then ss[k] else NO_UNRELEASED, ss, heights, line, promotable);
    if k < |ss| then rest[k := u]
    else if u == NO_UNRELEASED then rest
    else [u] + rest
  }

  lemma {:induction false} HeightsLength(ss: seq<Section>)
    ensures |Heights(ss)| == |ss|
  {
    if ss != [] {
      HeightsLength(ss[1..]);
    }
  }

  // ----------------------------------------------------------------- one pass

  /** `fixChangelogContent` on a parsed document. */
  function Fix(d: Doc, promotable: set<nat>, historical: set<Lines>): Doc {
    HeightsLength(d.sections);
    var dropped := DropDuplicates(d.sections, historical);
    var promoted := Promote(dropped, Heights(d.sections), |d.prefix| + 1, promotable);
    d.(sections := SortSections(NormalizeSections(promoted)))
  }

  function FixContent(content: string, promotable: set<nat>, historical: set<Lines>): string {
    Render(Fix(Parse(content), promotable, historical))
  }

  // ------------------------------------------------------------- line numbers

  /** The number of the first line under the j-th subsection heading, when the first of the
      subsections starts at `line`. */
  function SubLine(subs: seq<Sub>, line: nat, j: nat): nat
    requires j < |subs|
  {
    if j == 0 then line + 1 else SubLine(subs[1..], line + 1 + |subs[0].lines|, j - 1)
  }

  predicate At(ls: Lines, n: int, text: string) {
    0 <= n < |ls| && ls[n] == text
  }

  predicate HasLine(subs: seq<Sub>, j: nat, o: nat) {
    j < |subs| && o < |subs[j].lines|
  }

  lemma AtAfter(a: Lines, b: Lines, n: int, text: string)
    requires At(b, n, text)
    ensures At(a + b, |a| + n, text)
  {}

  lemma AtBefore(a: Lines, b: Lines, n: int, text: string)
    requires At(a, n, text)
    ensures At(a + b, n, text)
  {}

  /** The o-th line of the j-th of `subs`, counting from `line`, is line `n` of `ls`. */
  ghost predicate SubLineIs(ls: Lines, subs: seq<Sub>, line: nat, j: nat, o: nat)
    requires HasLine(subs, j, o)
  {
    At(ls, SubLine(subs, line, j) + o - line, subs[j].lines[o])
  }

  lemma FirstSubLine(h: string, s: Sub, rest: Lines, subs: seq<Sub>, line: nat, o: nat)
    requires o < |s.lines|
    ensures HasLine([s] + subs, 0, o) && SubLineIs([h] + s.lines + rest, [s] + subs, line, 0, o)
  {
    AtLine(h, s.lines, o);
    AtBefore([h] + s.lines, rest, 1 + o, s.lines[o]);
  }

  lemma LaterSubLine(h: string, s: Sub, rest: Lines, subs: seq<Sub>, line: nat, j: nat, o: nat)
    requires HasLine(subs, j, o) && SubLineIs(rest, subs, line + 1 + |s.lines|, j, o)
    ensures HasLine([s] + subs, j + 1, o) && SubLineIs([h] + s.lines + rest, [s] + subs, line, j + 1, o)
  {
    hide At;
    var all := [s] + subs;
    assert all[1..] == subs && all[j + 1] == subs[j];
    AtAfter([h] + s.lines, rest, SubLine(subs, line + 1 + |s.lines|, j) + o - (line + 1 + |s.lines|), subs[j].lines[o]);
  }

  lemma {:induction false} SubLinesAreReal(ls: Lines, line: nat, j: nat, o: nat)
    requires ls == [] || IsSubsectionHeading(ls[0])
    requires ParseSubs(ls) != [] && HasLine(ParseSubs(ls), j, o)
    ensures SubLineIs(ls, ParseSubs(ls), line, j, o)
    decreases |ls|
  {
    hide IsSubsectionHeading, ParseSubs, SubLineIs, HasLine;
    var h, s, rest := FirstSub(ls);
    HasLineMeans(ParseSubs(rest), s, j, o);
    if j == 0 {
      FirstSubLine(h, s, rest, ParseSubs(rest), line, o);
    } else {
      SubLinesAreReal(rest, line + 1 + |s.lines|, j - 1, o);
      LaterSubLine(h, s, rest, ParseSubs(rest), line, j - 1, o);
    }
  }

  /** The first subsection of some lines, with its heading and what follows. */
  lemma FirstSub(ls: Lines) returns (h: string, s: Sub, rest: Lines)
    requires ls == [] || IsSubsectionHeading(ls[0])
    requires ParseSubs(ls) != []
    ensures ls == [h] + s.lines + rest
    ensures rest == [] || IsSubsectionHeading(rest[0])
    ensures ParseSubs(ls) == [s] + ParseSubs(rest)
  {
    SubsComeFromLines(ls);
    hide IsSubsectionHeading, SubsectionTitle, ParseSubs;
    var k := Ahead(IsSubsectionHeading, ls[1..]);
    h, s, rest := ls[0], Sub(SubsectionTitle(ls[0]), ls[1..][..k]), ls[1..][k..];
    HeadBodyRest(ls, k);
    ParseSubsStep(h, s.lines, rest);
  }

  lemma HeadBodyRest<T>(s: seq<T>, k: nat)
    requires k < |s|
    ensures s == [s[0]] + s[1..][..k] + s[1..][k..] == [s[0]] + (s[1..][..k] + s[1..][k..])
  {}

  lemma HasLineMeans(subs: seq<Sub>, s: Sub, j: nat, o: nat)
    ensures HasLine([s] + subs, j, o) <==> if j == 0 then o < |s.lines| else HasLine(subs, j - 1, o)
    ensures j > 0 && HasLine([s] + subs, j, o) ==> subs != []
  {}

  lemma AtLine(h: string, body: Lines, o: nat)
    requires o < |body|
    ensures At([h] + body, 1 + o, body[o])
  {}

  lemma SubsComeFromLines(ls: Lines)
    requires ls == [] || IsSubsectionHeading(ls[0])
    ensures ParseSubs(ls) != [] ==> ls != []
  {}

  lemma {:induction false} SubsHeightIs(ls: Lines)
    requires ls == [] || IsSubsectionHeading(ls[0])
    ensures SubsHeight(ParseSubs(ls)) == |ls|
    decreases |ls|
  {
    hide IsSubsectionHeading, SubsectionTitle;
    if ls != [] {
      SubsHeightIs(ls[1..][Ahead(IsSubsectionHeading, ls[1..])..]);
    }
  }

  lemma SectionHeightIs(heading: string, body: Lines)
    ensures Height(ParseSection(heading, body)) == 1 + |body|
  {
    hide IsSubsectionHeading;
    SubsHeightIs(body[Ahead(IsSubsectionHeading, body)..]);
  }

  /** The number of the o-th line of the j-th subsection of a section whose heading is at `line`. */
  function NumberInSection(s: Section, line: nat, j: nat, o: nat): nat
    requires j < |s.subs|
  {
    SubLine(s.subs, line + 1 + |s.leading|, j) + o
  }

  lemma SectionLinesAreReal(heading: string, body: Lines, line: nat, j: nat, o: nat)
    requires HasLine(ParseSection(heading, body).subs, j, o)
    ensures At([heading] + body, NumberInSection(ParseSection(heading, body), line, j, o) - line, ParseSection(heading, body).subs[j].lines[o])
  {
    hide IsSubsectionHeading, ParseSubs, SubLine, At;
    var k := Ahead(IsSubsectionHeading, body);
    SubLinesAreReal(body[k..], line + 1 + k, j, o);
    assert [heading] + body == ([heading] + body[..k]) + body[k..];
    AtAfter([heading] + body[..k], body[k..], SubLine(ParseSubs(body[k..]), line + 1 + k, j) + o - (line + 1 + k),
            ParseSubs(body[k..])[j].lines[o]);
  }

  /** The number of the o-th line of the j-th subsection of the i-th section, when the first
      section's heading is at `line`. */
  function NumberOf(ss: seq<Section>, line: nat, i: nat, j: nat, o: nat): nat
    requires i < |ss| && j < |ss[i].subs|
  {
    if i == 0 then NumberInSection(ss[0], line, j, o) else NumberOf(ss[1..], line + Height(ss[0]), i - 1, j, o)
  }

  lemma SectionsComeFromLines(ls: Lines)
    requires ls == [] || IsReleaseHeading(ls[0])
    ensures ParseSections(ls) != [] ==> ls != []
  {}

  lemma {:induction false} SectionsLinesAreReal(ls: Lines, line: nat, i: nat, j: nat, o: nat)
    requires ls == [] || IsReleaseHeading(ls[0])
    requires i < |ParseSections(ls)| && HasLine(ParseSections(ls)[i].subs, j, o)
    ensures At(ls, NumberOf(ParseSections(ls), line, i, j, o) - line, ParseSections(ls)[i].subs[j].lines[o])
    decreases |ls|
  {
    hide IsReleaseHeading, ParseSection, NumberInSection, Height, At, ParseSections;
    SectionsComeFromLines(ls);
    var k := Ahead(IsReleaseHeading, ls[1..]);
    var h, body, rest := ls[0], ls[1..][..k], ls[1..][k..];
    assert ls == [h] + body + rest;
    ParseSectionsStep(h, body, rest);
    var p, ss := ParseSection(h, body), ParseSections(rest);
    assert ([p] + ss)[1..] == ss;
    SectionHeightIs(h, body);
    if i == 0 {
      SectionLinesAreReal(h, body, line, j, o);
      AtBefore([h] + body, rest, NumberInSection(p, line, j, o) - line, p.subs[j].lines[o]);
    } else {
      assert ss[i - 1] == ([p] + ss)[i];
      SectionsLinesAreReal(rest, line + 1 + k, i - 1, j, o);
      AtAfter([h] + body, rest, NumberOf(ss, line + 1 + k, i - 1, j, o) - (line + 1 + k), ss[i - 1].subs[j].lines[o]);
    }
  }

  /** The numbers that promotion goes by are line numbers of the text. */
  lemma LineNumbersAreReal(content: string, i: nat, j: nat, o: nat)
    requires i < |Parse(content).sections| && HasLine(Parse(content).sections[i].subs, j, o)
    ensures At(SplitContentLines(content), NumberOf(Parse(content).sections, |Parse(content).prefix| + 1, i, j, o) - 1,
               Parse(content).sections[i].subs[j].lines[o])
  {
    hide IsReleaseHeading, ParseSections, NumberOf, SplitContentLines, At;
    var ls := SplitContentLines(content);
    var k := Ahead(IsReleaseHeading, ls);
    SectionsLinesAreReal(ls[k..], k + 1, i, j, o);
    assert ls == ls[..k] + ls[k..];
    AtAfter(ls[..k], ls[k..], NumberOf(ParseSections(ls[k..]), k + 1, i, j, o) - (k + 1), ParseSections(ls[k..])[i].subs[j].lines[o]);
  }
}
