/** The order a pass leaves the sections in, by the version numbers of their titles
    (scripts/fix-changelogs.ts:438-462, 531-580). */
module ChangelogOrder {
  import opened Basics
  import opened Decimals
  import opened Items
  import opened Lists
  import opened StableSort
  import opened ChangelogText
  import opened ChangelogDocument
  import opened ChangelogFix
  import opened ChangelogValidity
  import opened ChangelogStability
  import opened ChangelogExact
  import Notes = ReleaseNotes
  import Text

  // ------------------------------------------------------------- precedence

  /** The number at a place of a version; a missing one is zero. */
  function Place(parts: seq<Option<int>>, k: nat): int {
    if k < |parts| && parts[k].Some? then parts[k].value else 0
  }

  ghost predicate SameUpTo(a: seq<Option<int>>, b: seq<Option<int>>, k: nat) {
    forall j: nat :: j < k ==> Place(a, j) == Place(b, j)
  }

  /** At the first place where the two differ, `a` has the smaller number. */
  ghost predicate Precedes(a: seq<Option<int>>, b: seq<Option<int>>) {
    exists k: nat :: SameUpTo(a, b, k) && Place(a, k) < Place(b, k)
  }

  lemma PlaceShifts(a: seq<Option<int>>, k: nat)
    requires AllNumbers(a)
    ensures Place(a, 0) == HeadOr(a).value && Place(a, k + 1) == Place(TailOr(a), k)
  {}

  lemma SameShifts(a: seq<Option<int>>, b: seq<Option<int>>, k: nat)
    requires AllNumbers(a) && AllNumbers(b)
    ensures SameUpTo(a, b, k + 1) <==> Place(a, 0) == Place(b, 0) && SameUpTo(TailOr(a), TailOr(b), k)
  {
    hide Place, AllNumbers, TailOr, HeadOr;
    forall j: nat ensures Place(a, j + 1) == Place(TailOr(a), j) && Place(b, j + 1) == Place(TailOr(b), j) {
      PlaceShifts(a, j);
      PlaceShifts(b, j);
    }
    if SameUpTo(a, b, k + 1) {
      forall j: nat | j < k ensures Place(TailOr(a), j) == Place(TailOr(b), j) {
        assert Place(a, j + 1) == Place(b, j + 1);
      }
    }
    if Place(a, 0) == Place(b, 0) && SameUpTo(TailOr(a), TailOr(b), k) {
      forall j: nat | j < k + 1 ensures Place(a, j) == Place(b, j) {
        if j > 0 {
          assert Place(TailOr(a), j - 1) == Place(TailOr(b), j - 1);
        }
      }
    }
  }

  lemma PrecedesShifts(a: seq<Option<int>>, b: seq<Option<int>>)
    requires AllNumbers(a) && AllNumbers(b)
    ensures Precedes(a, b) <==> Place(a, 0) < Place(b, 0) || (Place(a, 0) == Place(b, 0) && Precedes(TailOr(a), TailOr(b)))
  {
    hide Place, AllNumbers, SameUpTo, TailOr;
    SameAtStart(a, b);
    if k: nat :| SameUpTo(a, b, k) && Place(a, k) < Place(b, k) {
      if k > 0 {
        SameShifts(a, b, k - 1);
        PlaceShifts(a, k - 1);
        PlaceShifts(b, k - 1);
      }
    }
    if Place(a, 0) < Place(b, 0) {
      assert SameUpTo(a, b, 0);
    }
    if k: nat :| Place(a, 0) == Place(b, 0) && SameUpTo(TailOr(a), TailOr(b), k) && Place(TailOr(a), k) < Place(TailOr(b), k) {
      SameShifts(a, b, k);
      PlaceShifts(a, k);
      PlaceShifts(b, k);
    }
  }

  lemma SameAtStart(a: seq<Option<int>>, b: seq<Option<int>>)
    ensures SameUpTo(a, b, 0)
  {}

  /** Between numeric titles the comparison is positive exactly when the first precedes. */
  lemma {:induction false} CompareIsPrecedence(a: seq<Option<int>>, b: seq<Option<int>>)
    requires AllNumbers(a) && AllNumbers(b)
    ensures CompareParts(a, b) > 0 <==> Precedes(a, b)
    decreases |a| + |b|
  {
    hide AllNumbers, Precedes, Place, CompareParts, HeadOr;
    if a == [] && b == [] {
      NothingPrecedes();
    } else {
      TailNumbers(a);
      TailNumbers(b);
      ComparePadded(a, b);
      PlaceShifts(a, 0);
      PlaceShifts(b, 0);
      PrecedesShifts(a, b);
      CompareIsPrecedence(TailOr(a), TailOr(b));
    }
  }

  lemma NothingPrecedes()
    ensures CompareParts([], []) == 0 && !Precedes([], [])
  {}

  // ------------------------------------------------------- numbers of a title

  /** A printed number reads as that number. */
  lemma {:induction false} NumberOfDecimal(n: nat)
    ensures Notes.Digits(Decimal(n)) && Notes.Number(Decimal(n)) == n
  {
    if n >= 10 {
      NumberOfDecimal(n / 10);
      var s := Decimal(n);
      assert s[..|s| - 1] == Decimal(n / 10);
    } else {
      assert Value([]) == 0 && [Digit(n)][..0] == [];
    }
  }

  lemma DigitsAreParsed(d: string)
    requires Notes.Digits(d)
    ensures ParseInt(d) == Some(Notes.Number(d))
  {
    hide Value;
    assert d + [] == d && d[..|d|] == d;
    Notes.DigitsAheadIs(d, []);
    assert !Text.IsSpace(d[0]);
  }

  lemma SplitFirst(a: string, rest: string)
    requires '.' !in a
    ensures SplitAt('.', a + ("." + rest)) == [a] + SplitAt('.', rest)
  {
    var s := a + ("." + rest);
    UpToIs('.', a, "." + rest);
    assert s[..|a|] == a && s[|a| + 1..] == rest;
  }

  lemma SplitNone(a: string)
    requires '.' !in a
    ensures SplitAt('.', a) == [a]
  {
    UpToIs('.', a, []);
    assert a + [] == a;
  }

  lemma PartsCons(a: string, rest: seq<string>)
    ensures ParseParts([a] + rest) == [ParseInt(a)] + ParseParts(rest)
  {
    hide ParseInt;
    assert ([a] + rest)[1..] == rest;
  }

  /** The title of a heading for a version, whatever follows the bracket, holds its three numbers. */
  lemma VersionIsRead(v: Notes.Version, rest: string)
    requires Notes.Spelled(v)
    ensures ReleaseTitle("## [" + Notes.VersionText(v) + "]" + rest) == Notes.VersionText(v)
    ensures VersionParts(Notes.VersionText(v)) == [Some(Notes.Number(v.major)), Some(Notes.Number(v.minor)), Some(Notes.Number(v.patch))]
  {
    hide ParseInt, Notes.Number, SplitAt, ParseParts;
    var s := Notes.VersionText(v);
    DigitsAreParsed(v.major);
    DigitsAreParsed(v.minor);
    DigitsAreParsed(v.patch);
    SplitFirst(v.major, v.minor + ("." + v.patch));
    SplitFirst(v.minor, v.patch);
    SplitNone(v.patch);
    PartsCons(v.major, [v.minor, v.patch]);
    PartsCons(v.minor, [v.patch]);
    PartsCons(v.patch, []);
    NoParts();
    assert [v.patch] + [] == [v.patch] && [v.minor] + [v.patch] == [v.minor, v.patch];
    assert SplitAt('.', s) == [v.major] + [v.minor, v.patch];
    TitleIs(s, rest);
  }

  lemma NoParts()
    ensures ParseParts([]) == []
  {}

  lemma TitleIs(title: string, rest: string)
    requires title != [] && ']' !in title
    ensures ReleaseTitle("## [" + title + "]" + rest) == title
  {
    var h := "## [" + title + "]" + rest;
    assert h == "## [" + (title + ("]" + rest));
    assert h[4..] == title + ("]" + rest);
    UpToIs(']', title, "]" + rest);
    assert (title + ("]" + rest))[..|title|] == title;
  }

  // --------------------------------------------------------------- the sections

  /** No Unreleased section stands after a released one, and of two released ones the first does
      not precede the second. */
  ghost predicate NewestFirst(ss: seq<Section>) {
    && (forall i, j :: 0 <= i < j < |ss| && ss[j].Title() == "Unreleased" ==> ss[i].Title() == "Unreleased")
    && (forall i, j :: 0 <= i < j < |ss| && ss[i].Title() != "Unreleased" && ss[j].Title() != "Unreleased" ==>
          !Precedes(VersionParts(ss[i].Title()), VersionParts(ss[j].Title())))
  }

  lemma InOrderIsNewestFirst(ss: seq<Section>, k: nat)
    requires NumericTitles(ss) && InOrder(ss, k)
    ensures NewestFirst(ss)
  {
    hide AllNumbers, CompareParts, Precedes, VersionParts, Section.Title;
    forall i, j | 0 <= i < j < |ss| && ss[i].Title() != "Unreleased" && ss[j].Title() != "Unreleased"
      ensures !Precedes(VersionParts(ss[i].Title()), VersionParts(ss[j].Title()))
    {
      assert Numeric(ss[i]) && Numeric(ss[j]) && CompareSections(ss[i], ss[j]) <= 0;
      CompareIsPrecedence(VersionParts(ss[i].Title()), VersionParts(ss[j].Title()));
    }
  }

  ghost function Headings(ss: seq<Section>): multiset<string> {
    if ss == [] then multiset{} else multiset{ss[0].heading} + Headings(ss[1..])
  }

  lemma {:induction false} HeadingsAppend(a: seq<Section>, b: seq<Section>)
    ensures Headings(a + b) == Headings(a) + Headings(b)
  {
    if a == [] {
      assert a + b == b;
    } else {
      assert (a + b)[1..] == a[1..] + b;
      HeadingsAppend(a[1..], b);
    }
  }

  lemma HeadingsOne(s: Section)
    ensures Headings([s]) == multiset{s.heading}
  {
    assert [s][1..] == [];
  }

  lemma {:induction false} HeadingsSame(a: seq<Section>, b: seq<Section>)
    requires SameHeadings(a, b)
    ensures Headings(a) == Headings(b)
  {
    if a != [] {
      HeadingsSame(a[1..], b[1..]);
    }
  }

  lemma {:induction false} HeadingsInserted(cmp: (Section, Section) -> int, x: Section, s: seq<Section>)
    ensures Headings(InsertBy(cmp, x, s)) == multiset{x.heading} + Headings(s)
  {
    if s == [] || cmp(x, s[0]) <= 0 {
      HeadingsAppend([x], s);
      HeadingsOne(x);
      assert [x] + [] == [x];
    } else {
      HeadingsInserted(cmp, x, s[1..]);
      HeadingsAppend([s[0]], InsertBy(cmp, x, s[1..]));
      HeadingsOne(s[0]);
    }
  }

  lemma {:induction false} HeadingsSorted(cmp: (Section, Section) -> int, s: seq<Section>)
    ensures Headings(SortBy(cmp, s)) == Headings(s)
  {
    if s != [] {
      HeadingsSorted(cmp, s[1..]);
      HeadingsInserted(cmp, s[0], SortBy(cmp, s[1..]));
    }
  }

  lemma {:induction false} HeadingsParted(ss: seq<Section>)
    ensures Headings(Filter(IsUnreleased, ss)) + Headings(Filter(IsReleased, ss)) == Headings(ss)
  {
    hide IsUnreleased, Headings, Filter;
    if ss == [] {
      NothingParted();
    } else {
      HeadingsParted(ss[1..]);
      assert ss == [ss[0]] + ss[1..];
      FilterCons(IsUnreleased, ss[0], ss[1..]);
      FilterCons(IsReleased, ss[0], ss[1..]);
      HeadingsAppend([ss[0]], ss[1..]);
      HeadingsAppend([ss[0]], Filter(IsUnreleased, ss[1..]));
      HeadingsAppend([ss[0]], Filter(IsReleased, ss[1..]));
    }
  }

  lemma NothingParted()
    ensures Headings(Filter(IsUnreleased, [])) + Headings(Filter(IsReleased, [])) == Headings([])
  {}

  lemma SortKeepsHeadings(ss: seq<Section>)
    ensures Headings(SortSections(ss)) == Headings(ss)
  {
    hide IsUnreleased, CompareSections;
    HeadingsAppend(Filter(IsUnreleased, ss), SortBy(CompareSections, Filter(IsReleased, ss)));
    HeadingsSorted(CompareSections, Filter(IsReleased, ss));
    HeadingsParted(ss);
  }

  lemma AddKeepsHeading(u: Section, title: string, items: seq<Lines>)
    ensures AddToSection(u, title, items).heading == u.heading
  {}

  lemma {:induction false} PromoteSubsHeading(u: Section, subs: seq<Sub>, line: nat, promotable: set<nat>)
    ensures PromoteSubs(u, subs, line, promotable).0.heading == u.heading
    decreases |subs|
  {
    hide Moved, Kept, AddToSection, Cut, Preamble, Flatten;
    if subs != [] {
      var ls := subs[0].lines;
      AddKeepsHeading(u, subs[0].title, Moved(Cut(IsBullet, ls), line + 1 + |Preamble(IsBullet, ls)|, promotable));
      var u1 := AddToSection(u, subs[0].title, Moved(Cut(IsBullet, ls), line + 1 + |Preamble(IsBullet, ls)|, promotable));
      PromoteSubsHeading(u1, subs[1..], line + 1 + |ls|, promotable);
    }
  }

  lemma {:induction false} PromoteSectionsHeadings(u: Section, ss: seq<Section>, heights: seq<nat>, line: nat, promotable: set<nat>)
    requires |heights| == |ss|
    ensures PromoteSections(u, ss, heights, line, promotable).0.heading == u.heading
    ensures SameHeadings(ss, PromoteSections(u, ss, heights, line, promotable).1)
    decreases |ss|
  {
    hide PromoteSubs, IsUnreleased;
    if ss != [] {
      var (u1, subs) := if IsUnreleased(ss[0]) then (u, ss[0].subs) else PromoteSubs(u, ss[0].subs, line + 1 + |ss[0].leading|, promotable);
      PromoteSubsHeading(u, ss[0].subs, line + 1 + |ss[0].leading|, promotable);
      PromoteSectionsHeadings(u1, ss[1..], heights[1..], line + heights[0], promotable);
    }
  }

  /** Promotion keeps the headings in place, or puts an Unreleased one in front where there is none. */
  lemma PromoteHeadings(ss: seq<Section>, heights: seq<nat>, line: nat, promotable: set<nat>)
    requires |heights| == |ss|
    ensures var p := Promote(ss, heights, line, promotable);
      SameHeadings(ss, p) || (Lacks(IsUnreleased, ss) && |p| == |ss| + 1 && p[0].heading == UNRELEASED_HEADING && SameHeadings(ss, p[1..]))
  {
    hide PromoteSections, IsUnreleased;
    var k := FirstUnreleased(ss);
    PromoteSectionsHeadings(if k < |ss| then ss[k] else NO_UNRELEASED, ss, heights, line, promotable);
    var (u, rest) := PromoteSections(if k < |ss| then ss[k] else NO_UNRELEASED, ss, heights, line, promotable);
    assert ([u] + rest)[1..] == rest;
    assert ss[..|ss|] == ss;
  }

  lemma DropHeadings(ss: seq<Section>, historical: set<Lines>)
    ensures SameHeadings(ss, DropDuplicates(ss, historical))
  {
    hide DropSubs, ReleasedBullets, IsUnreleased;
  }

  lemma {:induction false} NormalizeHeadings(ss: seq<Section>)
    ensures SameHeadings(ss, NormalizeSections(ss))
  {
    hide NormalizeSection;
    if ss != [] {
      NormalizeHeading(ss[0]);
      NormalizeHeadings(ss[1..]);
    }
  }

  /** The sections before sorting have the headings of the document, one Unreleased more at most. */
  ghost predicate SameButUnreleased(ss: seq<Section>, n: seq<Section>) {
    || SameHeadings(ss, n)
    || (Lacks(IsUnreleased, ss) && |n| == |ss| + 1 && n[0].heading == UNRELEASED_HEADING && SameHeadings(ss, n[1..]))
  }

  lemma SameAfter(ss: seq<Section>, a: seq<Section>, b: seq<Section>)
    requires SameButUnreleased(ss, a) && SameHeadings(a, b)
    ensures SameButUnreleased(ss, b)
  {
    hide Lacks;
  }

  lemma SameBefore(ss: seq<Section>, a: seq<Section>, b: seq<Section>)
    requires SameHeadings(ss, a) && SameButUnreleased(a, b)
    ensures SameButUnreleased(ss, b)
  {
    hide IsUnreleased;
    if Lacks(IsUnreleased, a) {
      forall i | 0 <= i < |ss| ensures !IsUnreleased(ss[i]) {
        SameTitleSameKind(ss[i], a[i]);
        assert !IsUnreleased(a[i]);
      }
    }
  }

  lemma NumericButUnreleased(ss: seq<Section>, n: seq<Section>)
    requires SameButUnreleased(ss, n) && NumericTitles(ss)
    ensures NumericTitles(n)
  {
    hide AllNumbers, ReleaseTitle, VersionParts, Lacks;
    if SameHeadings(ss, n) {
      NumericSame(ss, n);
    } else {
      NumericSame(ss, n[1..]);
      UnreleasedHeading();
      forall i | 0 <= i < |n| && IsReleased(n[i]) ensures Numeric(n[i]) {
        if i > 0 {
          assert n[i] == n[1..][i - 1];
        }
      }
    }
  }

  lemma HeadingsButUnreleased(ss: seq<Section>, n: seq<Section>)
    requires SameButUnreleased(ss, n)
    ensures Headings(n) == Headings(ss) || (Lacks(IsUnreleased, ss) && Headings(n) == Headings(ss) + multiset{UNRELEASED_HEADING})
  {
    hide Lacks;
    if SameHeadings(ss, n) {
      HeadingsSame(ss, n);
    } else {
      HeadingsSame(ss, n[1..]);
    }
  }

  /** A pass keeps the headings, an Unreleased one in front of a document without one aside, and
      leaves the newest release first. */
  lemma FixOrders(d: Doc, promotable: set<nat>, historical: set<Lines>)
    ensures Headings(Fix(d, promotable, historical).sections) == Headings(d.sections)
      || (Lacks(IsUnreleased, d.sections) && Headings(Fix(d, promotable, historical).sections) == Headings(d.sections) + multiset{UNRELEASED_HEADING})
    ensures NumericTitles(d.sections) ==> NumericTitles(Fix(d, promotable, historical).sections) && NewestFirst(Fix(d, promotable, historical).sections)
  {
    hide DropDuplicates, Promote, NormalizeSections, SortSections, NumericTitles, NewestFirst, SameHeadings, SameButUnreleased, InOrder, Lacks;
    HeightsLength(d.sections);
    var dropped := DropDuplicates(d.sections, historical);
    DropHeadings(d.sections, historical);
    SameLength(d.sections, dropped);
    var promoted := Promote(dropped, Heights(d.sections), |d.prefix| + 1, promotable);
    Promotes(dropped, Heights(d.sections), |d.prefix| + 1, promotable);
    SameBefore(d.sections, dropped, promoted);
    var n := NormalizeSections(promoted);
    NormalizeHeadings(promoted);
    SameAfter(d.sections, promoted, n);
    SortKeepsHeadings(n);
    HeadingsButUnreleased(d.sections, n);
    if NumericTitles(d.sections) {
      NumericButUnreleased(d.sections, n);
      SortedInOrder(n);
      SortedNumeric(n);
      InOrderIsNewestFirst(SortSections(n), |Filter(IsUnreleased, n)|);
    }
  }

  lemma SameLength(a: seq<Section>, b: seq<Section>)
    requires SameHeadings(a, b)
    ensures |a| == |b|
  {}

  lemma Promotes(ss: seq<Section>, heights: seq<nat>, line: nat, promotable: set<nat>)
    requires |heights| == |ss|
    ensures SameButUnreleased(ss, Promote(ss, heights, line, promotable))
  {
    hide Promote, Lacks;
    PromoteHeadings(ss, heights, line, promotable);
  }

  lemma SortedNumeric(ss: seq<Section>)
    requires NumericTitles(ss)
    ensures NumericTitles(SortSections(ss))
  {
    hide SortSections, IsUnreleased, Numeric;
    SortMembers(ss);
    var sorted := SortSections(ss);
    forall i | 0 <= i < |sorted| && IsReleased(sorted[i]) ensures Numeric(sorted[i]) {
      assert sorted[i] in ss;
    }
  }

  lemma {:induction false} TrimKeepsHeadings(ss: seq<Section>)
    ensures SameHeadings(ss, TrimSections(ss))
  {
    hide TrimSection;
    if ss != [] {
      TrimKeepsHeadings(ss[1..]);
      TrimHeading(ss[0]);
    }
  }

  lemma TrimHeading(s: Section)
    ensures TrimSection(s).heading == s.heading
  {}

  lemma SameNewestFirst(a: seq<Section>, b: seq<Section>)
    requires SameHeadings(a, b) && NewestFirst(a)
    ensures NewestFirst(b)
  {
    hide Precedes, VersionParts, ReleaseTitle;
    assert forall i :: 0 <= i < |a| ==> a[i].Title() == b[i].Title();
  }

  /** So the fixed text reads back with its newest release first, and with the headings it had. */
  lemma FixedTextIsOrdered(content: string, promotable: set<nat>, historical: set<Lines>)
    ensures var ss, fixed := Parse(content).sections, Parse(FixContent(content, promotable, historical)).sections;
      && (Headings(fixed) == Headings(ss) || (Lacks(IsUnreleased, ss) && Headings(fixed) == Headings(ss) + multiset{UNRELEASED_HEADING}))
      && (NumericTitles(ss) ==> NewestFirst(fixed))
  {
    hide Parse, FixContent, Fix, NumericTitles, NewestFirst, SameHeadings, Lacks, Headings, TrimSections;
    var d := Parse(content);
    var e, fixed := Fix(d, promotable, historical), Parse(FixContent(content, promotable, historical));
    FixedTextReadsBack(content, promotable, historical);
    FixOrders(d, promotable, historical);
    TrimKeepsHeadings(e.sections);
    TrimKeepsHeadings(fixed.sections);
    SameBoth(e.sections, fixed.sections);
    HeadingsSame(e.sections, fixed.sections);
    if NumericTitles(d.sections) {
      SameNewestFirst(e.sections, fixed.sections);
    }
  }

  lemma SameBoth(a: seq<Section>, b: seq<Section>)
    requires SameHeadings(a, TrimSections(a)) && SameHeadings(b, TrimSections(b)) && TrimSections(a) == TrimSections(b)
    ensures SameHeadings(a, b)
  {
    hide TrimSections;
  }

  // ------------------------------------------------- subsections of Unreleased

  /** The fixed places of subsection titles; any other title comes after them. */
  function Rank(title: string): nat {
    if title == "Breaking Changes" then 0
    else if title == "Added" then 1
    else if title == "Changed" then 2
    else if title == "Fixed" then 3
    else if title == "Removed" then 4
    else 5
  }

  lemma RankIs(title: string)
    ensures IndexOf(ORDERED_TITLES, title) == Rank(title)
  {
    var ts := ORDERED_TITLES;
    assert ts[1..][0] == ts[1] && ts[1..][1..] == ts[2..] && ts[2..][0] == ts[2] && ts[2..][1..] == ts[3..];
    assert ts[3..][0] == ts[3] && ts[3..][1..] == ts[4..] && ts[4..][0] == ts[4] && ts[4..][1..] == [];
    assert IndexOf([], title) == 0 && IndexOf(ts[4..], title) == if title == ts[4] then 0 else 1;
    assert IndexOf(ts[3..], title) == if title == ts[3] then 0 else 1 + IndexOf(ts[4..], title);
    assert IndexOf(ts[2..], title) == if title == ts[2] then 0 else 1 + IndexOf(ts[3..], title);
    assert IndexOf(ts[1..], title) == if title == ts[1] then 0 else 1 + IndexOf(ts[2..], title);
  }

  ghost predicate TitlesInOrder(subs: seq<Sub>) {
    forall i, j :: 0 <= i < j < |subs| ==> Rank(subs[i].title) <= Rank(subs[j].title)
  }

  function OtherTitle(): Sub -> bool {
    (s: Sub) => Rank(s.title) == 5
  }

  lemma SortedTitles(subs: seq<Sub>)
    ensures TitlesInOrder(SortBy(TitleOrder, subs))
    ensures Filter(OtherTitle(), SortBy(TitleOrder, subs)) == Filter(OtherTitle(), subs)
  {
    hide Rank, IndexOf, SortBy, Filter;
    var sorted := SortBy(TitleOrder, subs);
    TitleOrderConsistent();
    EveryAny(subs);
    SortAscending(TitleOrder, AnySub, subs);
    forall i, j | 0 <= i < j < |sorted| ensures Rank(sorted[i].title) <= Rank(sorted[j].title) {
      assert TitleOrder(sorted[i], sorted[j]) <= 0;
      RankIs(sorted[i].title);
      RankIs(sorted[j].title);
    }
    forall x, y | OtherTitle()(x) && OtherTitle()(y) ensures TitleOrder(x, y) <= 0 {
      RankIs(x.title);
      RankIs(y.title);
    }
    SortStable(TitleOrder, OtherTitle(), subs);
  }

  /** Normalizing puts the subsections of an Unreleased section in their fixed order, the others
      behind them in the order they had; a released section keeps the order of its own. */
  lemma NormalizeOrdersTitles(s: Section)
    ensures IsUnreleased(s) ==> TitlesInOrder(NormalizeSection(s).subs)
    ensures IsUnreleased(s) ==> Filter(OtherTitle(), NormalizeSection(s).subs) == Filter(OtherTitle(), MergeSubs([], s.subs))
    ensures IsReleased(s) ==> NormalizeSection(s).subs == MergeSubs([], s.subs)
  {
    hide MergeSubs, TitlesInOrder, Filter, SortBy;
    SortedTitles(MergeSubs([], s.subs));
  }

  ghost predicate UnreleasedInOrder(ss: seq<Section>) {
    forall i :: 0 <= i < |ss| && ss[i].Title() == "Unreleased" ==> TitlesInOrder(ss[i].subs)
  }

  lemma {:induction false} NormalizedInOrder(ss: seq<Section>)
    ensures UnreleasedInOrder(NormalizeSections(ss))
  {
    hide NormalizeSection, TitlesInOrder, ReleaseTitle;
    if ss != [] {
      NormalizedInOrder(ss[1..]);
      NormalizeOrdersTitles(ss[0]);
      NormalizeHeading(ss[0]);
    }
  }

  lemma MembersInOrder(a: seq<Section>, b: seq<Section>)
    requires UnreleasedInOrder(a) && forall s :: s in b ==> s in a
    ensures UnreleasedInOrder(b)
  {
    hide TitlesInOrder, ReleaseTitle;
    forall i | 0 <= i < |b| && b[i].Title() == "Unreleased" ensures TitlesInOrder(b[i].subs) {
      assert b[i] in a;
    }
  }

  /** A pass leaves the subsections of every Unreleased section in their fixed order. */
  lemma FixOrdersTitles(d: Doc, promotable: set<nat>, historical: set<Lines>)
    ensures UnreleasedInOrder(Fix(d, promotable, historical).sections)
  {
    hide DropDuplicates, Promote, NormalizeSections, SortSections, UnreleasedInOrder;
    HeightsLength(d.sections);
    var dropped := DropDuplicates(d.sections, historical);
    DropHeadings(d.sections, historical);
    SameLength(d.sections, dropped);
    var promoted := Promote(dropped, Heights(d.sections), |d.prefix| + 1, promotable);
    NormalizedInOrder(promoted);
    SortMembers(NormalizeSections(promoted));
    MembersInOrder(NormalizeSections(promoted), SortSections(NormalizeSections(promoted)));
  }

  lemma {:induction false} TrimKeepsTitleOrder(subs: seq<Sub>)
    requires TitlesInOrder(subs)
    ensures TitlesInOrder(TrimSubs(subs)) && forall i :: 0 <= i < |TrimSubs(subs)| ==> exists k :: 0 <= k < |subs| && subs[k].title == TrimSubs(subs)[i].title
  {
    hide Rank, TrimBlank;
    if subs != [] {
      TitlesTail(subs);
      TrimKeepsTitleOrder(subs[1..]);
      var rest := TrimSubs(subs[1..]);
      forall i | 0 <= i < |rest| ensures exists k :: 0 < k < |subs| && subs[k].title == rest[i].title {
        var k :| 0 <= k < |subs[1..]| && subs[1..][k].title == rest[i].title;
        assert subs[k + 1].title == rest[i].title;
      }
      assert [] + rest == rest;
    }
  }

  lemma TitlesTail(subs: seq<Sub>)
    requires TitlesInOrder(subs) && subs != []
    ensures TitlesInOrder(subs[1..])
  {
    hide Rank;
  }

  /** And so they read back from the fixed text, blank subsections aside. */
  lemma FixedTextOrdersTitles(content: string, promotable: set<nat>, historical: set<Lines>)
    ensures UnreleasedInOrder(TrimSections(Parse(FixContent(content, promotable, historical)).sections))
  {
    hide Parse, FixContent, Fix, UnreleasedInOrder, TrimSections;
    var e := Fix(Parse(content), promotable, historical);
    FixedTextReadsBack(content, promotable, historical);
    FixOrdersTitles(Parse(content), promotable, historical);
    TrimInOrder(e.sections);
  }

  lemma {:induction false} TrimInOrder(ss: seq<Section>)
    requires UnreleasedInOrder(ss)
    ensures UnreleasedInOrder(TrimSections(ss))
  {
    hide TitlesInOrder, ReleaseTitle, TrimSubs;
    if ss != [] {
      forall i | 0 <= i < |ss[1..]| && ss[1..][i].Title() == "Unreleased" ensures TitlesInOrder(ss[1..][i].subs) {
        assert ss[i + 1] == ss[1..][i];
      }
      TrimInOrder(ss[1..]);
      TrimHeading(ss[0]);
      if ss[0].Title() == "Unreleased" {
        TrimKeepsTitleOrder(ss[0].subs);
      }
    }
  }

  function HasTitle(title: string): Section -> bool {
    (s: Section) => s.Title() == title
  }

  lemma {:induction false} SameVersion(parts: seq<Option<int>>)
    ensures CompareParts(parts, parts) == 0
    decreases |parts|
  {
    if parts != [] && HeadOr(parts).Some? {
      SameVersion(TailOr(parts));
    }
  }

  /** Sections of one title stay in the order they had. */
  lemma SortKeepsOrder(ss: seq<Section>, title: string)
    ensures Filter(HasTitle(title), SortSections(ss)) == Filter(HasTitle(title), ss)
  {
    hide CompareParts, VersionParts, ReleaseTitle, SortBy;
    var u, r := Filter(IsUnreleased, ss), Filter(IsReleased, ss);
    forall x, y | HasTitle(title)(x) && HasTitle(title)(y) ensures CompareSections(x, y) <= 0 {
      SameVersion(VersionParts(title));
    }
    SortStable(CompareSections, HasTitle(title), r);
    hide Level, CompareSections, Filter;
    FilterAppend(HasTitle(title), u, SortBy(CompareSections, r));
    FilterKinds(ss, title);
  }

  lemma {:induction false} FilterKinds(ss: seq<Section>, title: string)
    ensures Filter(HasTitle(title), Filter(IsUnreleased, ss)) + Filter(HasTitle(title), Filter(IsReleased, ss)) == Filter(HasTitle(title), ss)
    ensures if title == UNRELEASED then Filter(HasTitle(title), Filter(IsReleased, ss)) == [] else Filter(HasTitle(title), Filter(IsUnreleased, ss)) == []
  {
    hide ReleaseTitle, Filter;
    if ss == [] {
      NoneLeft(title);
    } else {
      FilterKinds(ss[1..], title);
      assert ss == [ss[0]] + ss[1..];
      FilterCons(IsUnreleased, ss[0], ss[1..]);
      FilterCons(IsReleased, ss[0], ss[1..]);
      FilterCons(HasTitle(title), ss[0], ss[1..]);
      FilterCons(HasTitle(title), ss[0], Filter(IsUnreleased, ss[1..]));
      FilterCons(HasTitle(title), ss[0], Filter(IsReleased, ss[1..]));
      KindsJoin(Filter(HasTitle(title), Filter(IsUnreleased, ss[1..])), Filter(HasTitle(title), Filter(IsReleased, ss[1..])), ss[0]);
    }
  }

  lemma KindsJoin<T>(a: seq<T>, b: seq<T>, x: T)
    requires a == [] || b == []
    ensures ([x] + a) + b == [x] + (a + b)
    ensures a == [] ==> a + ([x] + b) == [x] + (a + b)
  {}

  lemma NoneLeft(title: string)
    ensures Filter(HasTitle(title), []) == [] && Filter(IsUnreleased, []) == [] && Filter(IsReleased, []) == []
  {}

  /** The order a fixed text is in: newest release first, and the subsections of Unreleased in their
      fixed order. */
  ghost predicate TextInOrder(content: string, fixed: string) {
    && (NumericTitles(Parse(content).sections) ==> NewestFirst(Parse(fixed).sections))
    && UnreleasedInOrder(TrimSections(Parse(fixed).sections))
  }

  lemma FixedTextInOrder(content: string, promotable: set<nat>, historical: set<Lines>)
    ensures TextInOrder(content, FixContent(content, promotable, historical))
  {
    hide Parse, FixContent, NumericTitles, NewestFirst, UnreleasedInOrder, TrimSections, Headings, Lacks;
    FixedTextIsOrdered(content, promotable, historical);
    FixedTextOrdersTitles(content, promotable, historical);
  }
}
