/** Exactly when merging repeated headings keeps a section's items (scripts/fix-changelogs.ts:218-232, 379-419). */
module ChangelogSwallow {
  import opened Lists
  import opened Items
  import opened StableSort
  import opened ChangelogText
  import opened ChangelogDocument
  import opened ChangelogFix
  import opened ChangelogItems

  /** Every item of the subsections, as often as it stands there. */
  function AllBullets(subs: seq<Sub>): seq<Lines> {
    if subs == [] then [] else Bullets(subs[0].lines) + AllBullets(subs[1..])
  }

  /** How many lines some items have together. */
  function Size(bs: seq<Lines>): nat {
    if bs == [] then 0 else |bs[0]| + Size(bs[1..])
  }

  lemma {:induction false} SizeAppend(a: seq<Lines>, b: seq<Lines>)
    ensures Size(a + b) == Size(a) + Size(b)
  {
    if a == [] {
      assert a + b == b;
    } else {
      assert (a + b)[1..] == a[1..] + b;
      SizeAppend(a[1..], b);
    }
  }

  lemma {:induction false} SizePermuted(a: seq<Lines>, b: seq<Lines>)
    requires multiset(a) == multiset(b)
    ensures Size(a) == Size(b)
  {
    SameMembers(a, b);
    if a != [] {
      var i := FoundFirst(a, b);
      SizePermuted(a[1..], b[..i] + b[i + 1..]);
      SizeWithout(b, i);
    }
  }

  lemma SizeWithout(b: seq<Lines>, i: nat)
    requires i < |b|
    ensures Size(b) == |b[i]| + Size(b[..i] + b[i + 1..])
  {
    SizeAppend(b[..i], b[i + 1..]);
    SizeAppend(b[..i], [b[i]] + b[i + 1..]);
    assert b == b[..i] + ([b[i]] + b[i + 1..]);
    assert ([b[i]] + b[i + 1..])[1..] == b[i + 1..];
  }

  lemma WithoutOne<T>(s: seq<T>, i: nat)
    requires i < |s|
    ensures multiset(s[..i] + s[i + 1..]) == multiset(s) - multiset{s[i]}
  {
    assert s == s[..i] + ([s[i]] + s[i + 1..]);
  }

  lemma {:induction false} AllBulletsAppend(a: seq<Sub>, b: seq<Sub>)
    ensures AllBullets(a + b) == AllBullets(a) + AllBullets(b)
  {
    hide Bullets;
    if a == [] {
      assert a + b == b;
    } else {
      assert (a + b)[1..] == a[1..] + b;
      AllBulletsAppend(a[1..], b);
    }
  }

  lemma AllBulletsOne(s: Sub)
    ensures AllBullets([s]) == Bullets(s.lines)
  {
    hide Bullets;
    assert [s][1..] == [];
  }

  lemma AllBulletsAt(subs: seq<Sub>, k: nat)
    requires k < |subs|
    ensures multiset(AllBullets(subs)) == multiset(AllBullets(subs[..k] + subs[k + 1..])) + multiset(Bullets(subs[k].lines))
  {
    hide Bullets, AllBullets;
    assert subs == subs[..k] + ([subs[k]] + subs[k + 1..]);
    AllBulletsAppend(subs[..k], [subs[k]] + subs[k + 1..]);
    AllBulletsAppend([subs[k]], subs[k + 1..]);
    AllBulletsAppend(subs[..k], subs[k + 1..]);
    AllBulletsOne(subs[k]);
  }

  lemma AllBulletsFirst(a: seq<Sub>)
    requires a != []
    ensures AllBullets(a) == Bullets(a[0].lines) + AllBullets(a[1..])
  {
    hide Bullets;
  }

  lemma {:induction false} AllBulletsPermuted(a: seq<Sub>, b: seq<Sub>)
    requires multiset(a) == multiset(b)
    ensures multiset(AllBullets(a)) == multiset(AllBullets(b))
  {
    hide Bullets, AllBullets;
    SameMembers(a, b);
    if a == [] {
      assert b == [];
    } else {
      var i := FoundFirst(a, b);
      AllBulletsPermuted(a[1..], b[..i] + b[i + 1..]);
      AllBulletsAt(b, i);
      AllBulletsFirst(a);
    }
  }

  lemma FoundFirst<T>(a: seq<T>, b: seq<T>) returns (i: nat)
    requires a != [] && multiset(a) == multiset(b)
    ensures i < |b| && b[i] == a[0] && multiset(a[1..]) == multiset(b[..i] + b[i + 1..])
  {
    SameMembers(a, b);
    assert a[0] in b;
    i :| 0 <= i < |b| && b[i] == a[0];
    WithoutOne(b, i);
    WithoutOne(a, 0);
    assert a[..0] + a[1..] == a[1..];
  }

  // ------------------------------------------------------------ one appending

  /** A chunk with visible text after it trims to more lines than without. */
  lemma GrowsWhenExtended(c: Lines, post: Lines)
    requires c != [] && !IsBlank(c[0]) && !Every(IsBlank, post)
    ensures |TrimBlank(c + post)| > |TrimBlank(c)|
  {
    hide IsBlank;
    var all := c + post;
    assert SkipWhile(IsBlank, c) == c && SkipWhile(IsBlank, all) == all;
    DropIs(IsBlank, c);
    DropIs(IsBlank, all);
    var i :| 0 <= i < |post| && !IsBlank(post[i]);
    assert all[|c| + i] == post[i];
  }

  /** Appending adds up the lines of the items, and more exactly when something is swallowed. */
  lemma AppendSize(target: Lines, source: Lines)
    requires TrimBlank(source) != []
    ensures Size(Bullets(AppendLines(target, source))) >= Size(Bullets(target)) + Size(Bullets(source))
    ensures Size(Bullets(AppendLines(target, source))) == Size(Bullets(target)) + Size(Bullets(source))
      <==> Bullets(target) == [] || StartsWithItem(source)
  {
    hide Bullets, IsBullet, IsBlank, TrimBy;
    if Bullets(target) == [] || StartsWithItem(source) {
      AppendKeepsBullets(target, source);
      SizeAppend(Bullets(target), Bullets(source));
    } else {
      var more, existing := TrimBlank(source), TrimBlank(target);
      BulletsOfTrimmed(source);
      BulletsOfTrimmed(target);
      NoBullets();
      var sep := if IsBullet(existing[|existing| - 1]) && IsBullet(more[0]) then [] else [""];
      TrimIsTrimmed(IsBlank, source);
      Swallowed(existing, sep, more);
    }
  }

  lemma Swallowed(a: Lines, sep: Lines, b: Lines)
    requires Bullets(a) != [] && sep == [""] && b != [] && !IsBullet(b[0]) && !IsBlank(b[0])
    ensures Size(Bullets(a + sep + b)) > Size(Bullets(a)) + Size(Bullets(b))
  {
    hide IsBullet, IsBlank, TrimBy, AreChunks, Lacks, Every, Cut, Preamble, Flatten, ExtendLast, Size, TrimEach;
    var pa, ca, pb, cb := Preamble(IsBullet, a), Cut(IsBullet, a), Preamble(IsBullet, b), Cut(IsBullet, b);
    CutParts(IsBullet, a);
    CutParts(IsBullet, b);
    var ce := ExtendLast(ca, sep + pb);
    SepLacks();
    LacksAppend(IsBullet, sep, pb);
    ExtendLastChunks(IsBullet, ca, sep + pb);
    ChunksAppend(IsBullet, ce, cb);
    FlattenAppend(ce, cb);
    Regroup(pa, Flatten(ca), sep + pb, Flatten(cb));
    assert a + sep + b == (pa + Flatten(ca)) + ((sep + pb) + Flatten(cb));
    CutIs(IsBullet, pa, ce + cb);
    TrimEachAppend(IsBlank, ce, cb);
    SizeAppend(TrimEach(IsBlank, ce), TrimEach(IsBlank, cb));
    VisiblePreamble(b, sep);
    ExtendedSize(ca, sep + pb);
  }

  lemma SepLacks()
    ensures Lacks(IsBullet, [""])
  {
    EmptyIsBlank();
  }

  lemma VisiblePreamble(b: Lines, sep: Lines)
    requires b != [] && !IsBullet(b[0]) && !IsBlank(b[0])
    ensures !Every(IsBlank, sep + Preamble(IsBullet, b))
  {
    hide IsBullet, IsBlank;
    assert Preamble(IsBullet, b) != [] && Preamble(IsBullet, b)[0] == b[0];
    assert (sep + Preamble(IsBullet, b))[|sep|] == b[0];
  }

  lemma ExtendedSize(cs: seq<Lines>, post: Lines)
    requires cs != [] && AreChunks(IsBullet, cs) && !Every(IsBlank, post)
    ensures Size(TrimEach(IsBlank, ExtendLast(cs, post))) > Size(TrimEach(IsBlank, cs))
  {
    hide IsBullet, IsBlank, TrimBy, Every;
    var init, last := cs[..|cs| - 1], cs[|cs| - 1];
    assert IsChunk(IsBullet, last);
    HeadVisible(last);
    GrowsWhenExtended(last, post);
    assert cs == init + [last];
    TrimEachAppend(IsBlank, init, [last]);
    TrimEachAppend(IsBlank, init, [last + post]);
    SizeAppend(TrimEach(IsBlank, init), TrimEach(IsBlank, [last]));
    SizeAppend(TrimEach(IsBlank, init), TrimEach(IsBlank, [last + post]));
    SizeOne(last);
    SizeOne(last + post);
  }

  lemma SizeOne(c: Lines)
    ensures Size(TrimEach(IsBlank, [c])) == |TrimBlank(c)|
  {
    hide TrimBy;
    var one := TrimEach(IsBlank, [c]);
    assert one[1..] == [];
  }

  // ------------------------------------------------------------- merging a list

  /** The subsection can be merged into what is there without being swallowed. */
  ghost predicate PairOk(acc: seq<Sub>, s: Sub) {
    var k := Find(acc, s.title);
    k < |acc| ==> Bullets(acc[k].lines) == [] || StartsWithItem(s.lines)
  }

  lemma SizeAt(subs: seq<Sub>, k: nat)
    requires k < |subs|
    ensures Size(AllBullets(subs)) == Size(AllBullets(subs[..k] + subs[k + 1..])) + Size(Bullets(subs[k].lines))
  {
    hide Bullets, AllBullets, Size;
    assert subs == subs[..k] + ([subs[k]] + subs[k + 1..]);
    SizeOfAppended(subs[..k], [subs[k]] + subs[k + 1..]);
    SizeOfAppended([subs[k]], subs[k + 1..]);
    SizeOfAppended(subs[..k], subs[k + 1..]);
    AllBulletsOne(subs[k]);
  }

  lemma SizeOfAppended(a: seq<Sub>, b: seq<Sub>)
    ensures Size(AllBullets(a + b)) == Size(AllBullets(a)) + Size(AllBullets(b))
  {
    hide AllBullets, Size;
    AllBulletsAppend(a, b);
    SizeAppend(AllBullets(a), AllBullets(b));
  }

  lemma MergeSize(acc: seq<Sub>, s: Sub)
    ensures Size(AllBullets(MergeSub(acc, s))) >= Size(AllBullets(acc)) + Size(Bullets(s.lines))
    ensures Size(AllBullets(MergeSub(acc, s))) == Size(AllBullets(acc)) + Size(Bullets(s.lines)) <==> PairOk(acc, s)
  {
    hide Bullets, AllBullets, AppendLines, CompactLines, Find, TrimBlank, IsBullet;
    var lines, k := CompactLines(s.lines), Find(acc, s.title);
    CompactKeepsBullets(s.lines);
    CompactKeepsStart(s.lines);
    NoBullets();
    if lines == [] {
      BlankStarts(s.lines);
    } else if k < |acc| {
      AppendSize(acc[k].lines, lines);
      var merged := Sub(s.title, AppendLines(acc[k].lines, lines));
      SizeAt(acc, k);
      SizeAt(acc[k := merged], k);
      assert acc[k := merged][..k] + acc[k := merged][k + 1..] == acc[..k] + acc[k + 1..];
    } else {
      AllBulletsAppend(acc, [Sub(s.title, lines)]);
      AllBulletsOne(Sub(s.title, lines));
      SizeAppend(AllBullets(acc), Bullets(lines));
    }
  }

  lemma BlankStarts(ls: Lines)
    requires TrimBlank(ls) == []
    ensures StartsWithItem(ls)
  {}

  /** Merging one subsection after another is safe exactly when each is, in its turn. */
  lemma MergeOkStep(acc: seq<Sub>, s: Sub, rest: seq<Sub>)
    requires Filled(acc) && UniqueTitles(acc)
    ensures MergeOk(acc + [s] + rest) <==> PairOk(acc, s) && MergeOk(MergeSub(acc, s) + rest)
  {
    hide Bullets, StartsWithItem, MergeSub, MergeOk, Filled, UniqueTitles;
    if MergeOk(acc + [s] + rest) {
      MergeKeepsOk(acc, s, rest);
      if Find(acc, s.title) < |acc| {
        MergePair(acc, s, rest, Find(acc, s.title));
      }
    }
    if PairOk(acc, s) && MergeOk(MergeSub(acc, s) + rest) {
      MergeOkBefore(acc, s, rest);
    }
  }

  lemma MergedBullets(acc: seq<Sub>, s: Sub)
    requires PairOk(acc, s)
    ensures var t, k := MergeSub(acc, s), Find(acc, s.title);
      && (Bullets(s.lines) != [] ==> k < |t| && t[k].title == s.title && Bullets(t[k].lines) != [])
      && |t| >= |acc| && (forall i :: 0 <= i < |acc| ==> t[i].title == acc[i].title && (Bullets(acc[i].lines) != [] ==> Bullets(t[i].lines) != []))
      && (|t| > |acc| ==> |t| == |acc| + 1 && k == |acc|)
  {
    hide Bullets, StartsWithItem, AppendLines, CompactLines, Find, TrimBlank, IsBullet;
    var lines, k := CompactLines(s.lines), Find(acc, s.title);
    CompactKeepsBullets(s.lines);
    CompactKeepsStart(s.lines);
    NoBullets();
    if lines != [] && k < |acc| {
      AppendKeepsBullets(acc[k].lines, lines);
    }
  }

  lemma MergeOkBefore(acc: seq<Sub>, s: Sub, rest: seq<Sub>)
    requires UniqueTitles(acc) && PairOk(acc, s) && MergeOk(MergeSub(acc, s) + rest)
    ensures MergeOk(acc + [s] + rest)
  {
    hide Bullets, StartsWithItem, MergeSub, Find;
    var t, k := MergeSub(acc, s), Find(acc, s.title);
    MergedBullets(acc, s);
    var all, after := acc + [s] + rest, t + rest;
    forall i, j | 0 <= i < j < |all| && all[i].title == all[j].title
      ensures Bullets(all[i].lines) == [] || StartsWithItem(all[j].lines)
    {
      if j > |acc| {
        var q := |t| + (j - |acc| - 1);
        assert after[q] == all[j];
        if i > |acc| {
          assert after[|t| + (i - |acc| - 1)] == all[i];
        } else if i == |acc| {
          assert Bullets(s.lines) != [] ==> after[k] == t[k];
        } else {
          assert after[i] == t[i] && all[i] == acc[i];
        }
      } else {
        DistinctBefore(acc, all, i, j);
        SameTitleIsFound(acc, s.title, i);
      }
    }
  }

  lemma DistinctBefore(acc: seq<Sub>, all: seq<Sub>, i: nat, j: nat)
    requires UniqueTitles(acc) && acc <= all && i < j < |all| && all[i].title == all[j].title
    ensures j >= |acc|
  {
    assert forall x :: 0 <= x < |acc| ==> all[x] == acc[x];
  }

  lemma SameTitleIsFound(acc: seq<Sub>, title: string, i: nat)
    requires UniqueTitles(acc) && i < |acc| && acc[i].title == title
    ensures Find(acc, title) == i
  {}

  lemma {:induction false} MergeAllSize(acc: seq<Sub>, subs: seq<Sub>)
    requires Filled(acc) && UniqueTitles(acc)
    ensures Size(AllBullets(MergeSubs(acc, subs))) >= Size(AllBullets(acc)) + Size(AllBullets(subs))
    ensures Size(AllBullets(MergeSubs(acc, subs))) == Size(AllBullets(acc)) + Size(AllBullets(subs)) <==> MergeOk(acc + subs)
    decreases |subs|
  {
    hide Bullets, MergeSub, MergeOk, Filled, UniqueTitles, PairOk;
    if subs == [] {
      assert acc + [] == acc;
      UniqueIsOk(acc);
    } else {
      var s, rest := subs[0], subs[1..];
      assert acc + subs == acc + [s] + rest;
      MergeKeepsFilled(acc, s);
      MergeKeepsUnique(acc, s);
      MergeSize(acc, s);
      MergeOkStep(acc, s, rest);
      MergeAllSize(MergeSub(acc, s), rest);
      SizeAppend(Bullets(s.lines), AllBullets(rest));
    }
  }

  lemma UniqueIsOk(subs: seq<Sub>)
    requires UniqueTitles(subs)
    ensures MergeOk(subs)
  {
    hide Bullets, StartsWithItem;
  }

  lemma {:induction false} MergeAllKeeps(acc: seq<Sub>, subs: seq<Sub>)
    requires MergeOk(acc + subs) && Filled(acc) && UniqueTitles(acc)
    ensures multiset(AllBullets(MergeSubs(acc, subs))) == multiset(AllBullets(acc)) + multiset(AllBullets(subs))
    decreases |subs|
  {
    hide Bullets, MergeSub, MergeOk, Filled, UniqueTitles;
    if subs != [] {
      var s, rest := subs[0], subs[1..];
      assert acc + subs == acc + [s] + rest;
      MergeKeepsFilled(acc, s);
      MergeKeepsUnique(acc, s);
      MergeKeepsOk(acc, s, rest);
      MergeOneKeeps(acc, s, rest);
      MergeAllKeeps(MergeSub(acc, s), rest);
    }
  }

  lemma MergeOneKeeps(acc: seq<Sub>, s: Sub, rest: seq<Sub>)
    requires MergeOk(acc + [s] + rest)
    ensures multiset(AllBullets(MergeSub(acc, s))) == multiset(AllBullets(acc)) + multiset(Bullets(s.lines))
  {
    hide Bullets, StartsWithItem, AppendLines, CompactLines, Find, TrimBlank, IsBullet, AllBullets, MergeOk;
    var lines, k := CompactLines(s.lines), Find(acc, s.title);
    CompactKeepsBullets(s.lines);
    CompactKeepsStart(s.lines);
    NoBullets();
    if lines == [] {
    } else if k < |acc| {
      MergePair(acc, s, rest, k);
      AppendKeepsBullets(acc[k].lines, lines);
      var merged := Sub(s.title, AppendLines(acc[k].lines, lines));
      AllBulletsAt(acc, k);
      AllBulletsAt(acc[k := merged], k);
      assert acc[k := merged][..k] + acc[k := merged][k + 1..] == acc[..k] + acc[k + 1..];
    } else {
      AllBulletsAppend(acc, [Sub(s.title, lines)]);
      AllBulletsOne(Sub(s.title, lines));
    }
  }

  /** Normalizing a section never loses a line of an item, and adds lines exactly when it swallows. */
  lemma NormalizedSize(s: Section)
    ensures Size(AllBullets(NormalizeSection(s).subs)) >= Size(AllBullets(s.subs))
    ensures Size(AllBullets(NormalizeSection(s).subs)) == Size(AllBullets(s.subs)) <==> MergeOk(s.subs)
  {
    hide MergeSubs, MergeOk, Bullets, IsUnreleased, Filled, UniqueTitles, AllBullets, Size;
    var subs := MergeSubs([], s.subs);
    assert [] + s.subs == s.subs;
    NothingMerged();
    MergeAllSize([], s.subs);
    AllBulletsPermuted(subs, SortBy(TitleOrder, subs));
    SizePermuted(AllBullets(subs), AllBullets(SortBy(TitleOrder, subs)));
  }

  lemma NormalizedItems(s: Section)
    requires MergeOk(s.subs)
    ensures multiset(AllBullets(NormalizeSection(s).subs)) == multiset(AllBullets(s.subs))
  {
    hide MergeSubs, MergeOk, Bullets, IsUnreleased, Filled, UniqueTitles, AllBullets;
    var subs := MergeSubs([], s.subs);
    assert [] + s.subs == s.subs;
    NothingMerged();
    MergeAllKeeps([], s.subs);
    AllBulletsPermuted(subs, SortBy(TitleOrder, subs));
  }

  lemma NothingMerged()
    ensures Filled([]) && UniqueTitles([]) && AllBullets([]) == [] && Size([]) == 0
  {}

  /** Normalizing keeps the items of a section, each as often as it was there, exactly when no
      body merged after items starts with text of its own. */
  lemma ItemsKeptExactly(s: Section)
    ensures multiset(AllBullets(NormalizeSection(s).subs)) == multiset(AllBullets(s.subs)) <==> MergeOk(s.subs)
  {
    hide NormalizeSection, MergeOk, AllBullets, Size;
    NormalizedSize(s);
    if MergeOk(s.subs) {
      NormalizedItems(s);
    }
    if multiset(AllBullets(NormalizeSection(s).subs)) == multiset(AllBullets(s.subs)) {
      SizePermuted(AllBullets(NormalizeSection(s).subs), AllBullets(s.subs));
    }
  }

  // ------------------------------------------------------------ every section

  /** Every item of the sections, as often as it stands there. */
  function SectionsItems(ss: seq<Section>): seq<Lines> {
    if ss == [] then [] else AllBullets(ss[0].subs) + SectionsItems(ss[1..])
  }

  lemma {:induction false} NormalizedSizes(ss: seq<Section>)
    ensures Size(SectionsItems(NormalizeSections(ss))) >= Size(SectionsItems(ss))
    ensures Size(SectionsItems(NormalizeSections(ss))) == Size(SectionsItems(ss)) <==> AllMergeOk(ss)
    ensures AllMergeOk(ss) ==> multiset(SectionsItems(NormalizeSections(ss))) == multiset(SectionsItems(ss))
  {
    hide NormalizeSection, MergeOk, AllBullets, Size;
    if ss != [] {
      var s, rest := ss[0], ss[1..];
      NormalizedSizes(rest);
      NormalizedSize(s);
      if MergeOk(s.subs) {
        NormalizedItems(s);
      }
      FirstOk(s, rest);
      assert ss == [s] + rest;
      var n := NormalizeSections(rest);
      assert NormalizeSections(ss) == [NormalizeSection(s)] + n;
      assert ([NormalizeSection(s)] + n)[1..] == n;
      SizeAppend(AllBullets(s.subs), SectionsItems(rest));
      SizeAppend(AllBullets(NormalizeSection(s).subs), SectionsItems(n));
    }
  }

  lemma FirstOk(s: Section, rest: seq<Section>)
    ensures AllMergeOk([s] + rest) <==> MergeOk(s.subs) && AllMergeOk(rest)
  {
    hide MergeOk;
    if AllMergeOk([s] + rest) {
      assert ([s] + rest)[0] == s;
      assert forall i :: 0 <= i < |rest| ==> ([s] + rest)[i + 1] == rest[i];
    }
  }

  /** Normalizing all sections loses and makes no item exactly when that holds in each of them. */
  lemma AllItemsKeptExactly(ss: seq<Section>)
    ensures multiset(SectionsItems(NormalizeSections(ss))) == multiset(SectionsItems(ss)) <==> AllMergeOk(ss)
  {
    hide NormalizeSections, SectionsItems, AllMergeOk, Size;
    NormalizedSizes(ss);
    if multiset(SectionsItems(NormalizeSections(ss))) == multiset(SectionsItems(ss)) {
      SizePermuted(SectionsItems(NormalizeSections(ss)), SectionsItems(ss));
    }
  }
}
