/** Where the changelog fixer stops short of what its passes suggest, and exactly when it does not
    (scripts/fix-changelogs.ts:218-232, 382-410). */
module ChangelogLimits {
  import opened Lists
  import opened Items
  import opened StableSort
  import opened ChangelogText
  import opened ChangelogDocument
  import opened ChangelogFix
  import opened ChangelogItems
  import opened ChangelogStability

  /** Normalizing a section again changes nothing exactly when every merged body is compact:
      merging does not compact what it has put together. */
  lemma NormalizeTwiceExactly(s: Section)
    ensures NormalizeSection(NormalizeSection(s)) == NormalizeSection(s) <==> AllSettled(MergeSubs([], s.subs))
  {
    hide IsUnreleased, TrimBlank, AllSettled, UniqueTitles, MergeSubs, CompactEach;
    var subs, n := MergeSubs([], s.subs), NormalizeSection(s);
    NoTitles();
    MergeSubsUnique([], s.subs);
    UniquePermuted(subs, SortBy(TitleOrder, subs));
    SameTitleSameKind(s, n);
    assert [] + n.subs == n.subs && [] + CompactEach(n.subs) == CompactEach(n.subs);
    MergeUnique([], n.subs);
    TrimBlankTwice(s.leading);
    if AllSettled(subs) {
      SettledMembers(subs, SortBy(TitleOrder, subs));
      SettledIsFixed(n.subs);
      TitleOrderConsistent();
      EveryAny(subs);
      SortTwice(TitleOrder, AnySub, subs);
    }
    if NormalizeSection(n) == n {
      CompactEachSettles(n.subs);
      SettledMembers(CompactEach(n.subs), SortBy(TitleOrder, CompactEach(n.subs)));
      SettledMembers(SortBy(TitleOrder, subs), subs);
    }
  }

  /** Two bullets and a visible line that is none. */
  predicate Sample(a: string, c: string, b: string) {
    IsBullet(a) && IsBullet(b) && !IsBullet(c) && !IsBlank(c)
  }

  lemma OneItem(c: Lines)
    requires IsItem(c)
    ensures CompactLines(c) == c && Bullets(c) == [c]
  {
    hide IsBullet, IsBlank, TrimBy;
    ItemFacts(c);
    assert Flatten([c]) == c;
  }

  lemma SampleItems(a: string, c: string, b: string)
    requires Sample(a, c, b)
    ensures IsItem([a, c]) && IsItem([b]) && IsItem([a]) && IsItem([a, "", c])
    ensures TrimBlank([c]) == [c]
  {
    hide IsBullet, IsBlank, TrimBy;
    HeadVisible([a]);
    HeadVisible([b]);
    EmptyIsBlank();
    TrimFixed(IsBlank, [c]);
  }

  /** A bullet that goes on over a second line, followed under a repeated heading by another
      bullet: merging puts an empty line between them, and only the next pass takes it out. */
  lemma MergeLeavesGap(heading: string, title: string, a: string, c: string, b: string)
    requires Sample(a, c, b)
    ensures var s := Section(heading, [], [Sub(title, [a, c]), Sub(title, [b])]);
      && MergeSubs([], s.subs) == [Sub(title, [a, c, "", b])]
      && NormalizeSection(NormalizeSection(s)) != NormalizeSection(s)
  {
    hide IsBullet, IsBlank, TrimBy, IsItem, Compact;
    var first, second := Sub(title, [a, c]), Sub(title, [b]);
    var s := Section(heading, [], [first, second]);
    SampleItems(a, c, b);
    OneItem([a, c]);
    OneItem([b]);
    ItemFacts([a, c]);
    ItemFacts([b]);
    MergeTwo(first, second);
    assert AppendLines([a, c], [b]) == [a, c] + [""] + [b];
    var merged := [a, c, "", b];
    assert [a, c] + [""] + [b] == merged;
    GapCompacts(a, c, b);
    assert MergeSubs([], s.subs)[0].lines == merged;
    NormalizeTwiceExactly(s);
  }

  lemma MergeTwo(first: Sub, second: Sub)
    requires first.title == second.title && CompactLines(first.lines) == first.lines != [] && CompactLines(second.lines) == second.lines != []
    ensures MergeSubs([], [first, second]) == [Sub(first.title, AppendLines(first.lines, second.lines))]
  {
    hide CompactLines, AppendLines;
    assert MergeSub([], first) == [first];
    assert [first, second][1..] == [second] && [second][1..] == [];
    assert MergeSubs([], [first, second]) == MergeSubs([first], [second]) == MergeSub([first], second);
    assert [first][0 := Sub(first.title, AppendLines(first.lines, second.lines))] == [Sub(first.title, AppendLines(first.lines, second.lines))];
  }

  lemma GapCompacts(a: string, c: string, b: string)
    requires Sample(a, c, b)
    ensures CompactLines([a, c, "", b]) == [a, c, b]
  {
    hide IsBullet, IsBlank, TrimBy, Compact, Bullets;
    SampleItems(a, c, b);
    ItemFacts([a, c]);
    ItemFacts([b]);
    var merged := [a, c, "", b];
    BlankLines();
    assert merged == [a, c] + [""] + [b];
    NothingUnder([a, c], [b]);
    AppendItems([a, c], [""], [b]);
    assert Bullets(merged) == [[a, c], [b]];
    HeadVisible([a]);
    HeadVisible([b]);
    TrimFixed(IsBlank, merged);
    var rest := [[b]];
    assert rest[1..] == [] && Flatten(rest) == [b] + [] == [b];
    assert [[a, c], [b]][1..] == rest && Flatten([[a, c], [b]]) == [a, c] + [b] == [a, c, b];
    CompactFromItems(merged);
  }

  lemma NothingUnder(a: Lines, b: Lines)
    requires IsItem(b)
    ensures b != [] && IsBullet(b[0])
  {}

  lemma CompactFromItems(ls: Lines)
    requires ls != [] && IsBullet(ls[0]) && TrimBlank(ls) == ls
    ensures CompactLines(ls) == Flatten(Bullets(ls))
  {
    hide IsBullet, IsBlank, TrimBy;
  }

  /** Text at the top of a body that is merged after a bullet becomes part of that bullet: the
      item as it was is gone. */
  lemma MergeSwallowsItem(heading: string, title: string, a: string, c: string)
    requires Sample(a, c, a)
    ensures var s := Section(heading, [], [Sub(title, [a]), Sub(title, [c])]);
      [a] in SubsBullets(s.subs) && [a] !in SubsBullets(NormalizeSection(s).subs)
  {
    hide IsBullet, IsBlank, TrimBy, IsItem, Compact, Bullets, SubsBullets, IsUnreleased;
    var first, second := Sub(title, [a]), Sub(title, [c]);
    var s := Section(heading, [], [first, second]);
    SampleItems(a, c, a);
    OneItem([a]);
    OneItem([a, "", c]);
    ItemFacts([a]);
    ProseStays(c);
    MergeTwo(first, second);
    assert AppendLines([a], [c]) == [a] + [""] + [c] == [a, "", c];
    var merged := [Sub(title, [a, "", c])];
    SubsBulletsMember(s.subs, [a]);
    assert first in s.subs && [a] in Bullets(first.lines);
    SubsBulletsOne(merged[0]);
    SubsBulletsPermuted(merged, SortBy(TitleOrder, merged));
    assert [a] != [a, "", c];
  }

  lemma ProseStays(c: string)
    requires !IsBullet(c) && TrimBlank([c]) == [c]
    ensures CompactLines([c]) == [c]
  {
    hide IsBullet, IsBlank, TrimBy;
  }
}
