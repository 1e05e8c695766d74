/** A changelog edited in place: the passes of `fixChangelogContent` as methods of the document
    (scripts/fix-changelogs.ts:148-181, 266-329, 382-419, 457-462, 502-580). */
module ChangelogEditing {
  import opened Basics
  import opened Lists
  import opened Items
  import opened StableSort
  import opened ChangelogText
  import opened ChangelogDocument
  import opened ChangelogFix
  import opened ChangelogItems
  import opened ChangelogLines
  import opened ChangelogFixer
  import opened ChangelogValidity

  // -------------------------------------------------- taking items out of a body

  function KeyFlags(cs: seq<Lines>, keys: set<Lines>): (r: seq<bool>)
    ensures |r| == |cs| && forall k :: 0 <= k < |cs| ==> r[k] == (TrimBlank(cs[k]) in keys)
  {
    seq(|cs|, k requires 0 <= k < |cs| => TrimBlank(cs[k]) in keys)
  }

  lemma {:induction false} KeepIsSpared(cs: seq<Lines>, keys: set<Lines>)
    ensures KeepChunks(cs, keys) == Spared(cs, KeyFlags(cs, keys))
  {
    hide TrimBlank;
    if cs != [] {
      KeepIsSpared(cs[1..], keys);
      assert KeyFlags(cs, keys)[1..] == KeyFlags(cs[1..], keys);
    }
  }

  function NumberFlags(items: seq<ParsedItem>, promotable: set<nat>): (r: seq<bool>)
    ensures |r| == |items| && forall k :: 0 <= k < |items| ==> r[k] == (items[k].startLine in promotable)
  {
    seq(|items|, k requires 0 <= k < |items| => items[k].startLine in promotable)
  }

  lemma {:induction false} SparedAll<T>(s: seq<T>, drop: seq<bool>)
    requires |s| == |drop| && forall k :: 0 <= k < |s| ==> !drop[k]
    ensures Spared(s, drop) == s && Chosen(s, drop) == []
  {
    if s != [] {
      SparedAll(s[1..], drop[1..]);
    }
  }

  lemma {:induction false} NoneChosen<T>(s: seq<T>, drop: seq<bool>)
    requires |s| == |drop| && Chosen(s, drop) == []
    ensures forall k :: 0 <= k < |s| ==> !drop[k]
  {
    forall k | 0 <= k < |s| ensures !drop[k] {
      ChosenIs(s, drop, s[k]);
    }
  }

  lemma ChosenStep<T>(s: seq<T>, drop: seq<bool>, k: nat)
    requires |s| == |drop| && k < |s|
    ensures Chosen(s[k..], drop[k..]) == (if drop[k] then [s[k]] else []) + Chosen(s[k + 1..], drop[k + 1..])
  {
    assert s[k..][1..] == s[k + 1..] && drop[k..][1..] == drop[k + 1..];
  }

  /** The items with a flag: `filter` on the parsed items. */
  method Select(items: seq<ParsedItem>, flags: seq<bool>) returns (r: seq<ParsedItem>)
    requires |flags| == |items|
    ensures r == Chosen(items, flags)
  {
    hide Chosen;
    r := [];
    assert items[0..] == items && flags[0..] == flags && [] + Chosen(items, flags) == Chosen(items, flags);
    for k := 0 to |items|
      invariant r + Chosen(items[k..], flags[k..]) == Chosen(items, flags)
    {
      ChosenStep(items, flags, k);
      if flags[k] {
        assert r + ([items[k]] + Chosen(items[k + 1..], flags[k + 1..])) == (r + [items[k]]) + Chosen(items[k + 1..], flags[k + 1..]);
        r := r + [items[k]];
      } else {
        assert r + ([] + Chosen(items[k + 1..], flags[k + 1..])) == r + Chosen(items[k + 1..], flags[k + 1..]);
      }
    }
    ChosenEnd(items, flags);
    assert r + [] == r;
  }

  lemma ChosenEnd<T>(s: seq<T>, drop: seq<bool>)
    requires |s| == |drop|
    ensures Chosen(s[|s|..], drop[|s|..]) == []
  {}

  lemma SameCounts(lines: NumberedLines)
    ensures |ItemsIn(lines)| == |Cut(BulletAt, lines)| == |Cut(IsBullet, Texts(lines))|
    ensures Cut(IsBullet, Texts(lines)) == TextsOf(Cut(BulletAt, lines))
    ensures forall k :: 0 <= k < |ItemsIn(lines)| ==> ItemsIn(lines)[k].lines == TrimBlank(Cut(IsBullet, Texts(lines))[k])
  {
    hide BulletAt, IsBullet, TrimBy;
    CutTexts(lines);
    ItemTexts(lines);
  }

  /** Items flagged one by one disappear from the body, and nothing else does. */
  method TakeItems(lines: NumberedLines, items: seq<ParsedItem>, flags: seq<bool>) returns (chosen: seq<ParsedItem>, rest: NumberedLines)
    requires Increasing(lines) && items == ItemsIn(lines) && |flags| == |items|
    ensures |flags| == |Cut(IsBullet, Texts(lines))| == |Cut(BulletAt, lines)| && chosen == Chosen(items, flags)
    ensures rest == Preamble(BulletAt, lines) + Flatten(Spared(Cut(BulletAt, lines), flags))
    ensures Texts(rest) == Preamble(IsBullet, Texts(lines)) + Flatten(Spared(Cut(IsBullet, Texts(lines)), flags))
  {
    hide BulletAt, IsBullet, Spared, Chosen, Cut, Preamble, Texts, ItemsIn, Increasing;
    SameCounts(lines);
    RemainingTexts(lines, flags);
    chosen := Select(items, flags);
    rest := lines;
    if |chosen| > 0 {
      rest := RemoveItems(lines, chosen, flags);
    } else {
      NoneChosen(items, flags);
      SparedAll(Cut(BulletAt, lines), flags);
      CutParts(BulletAt, lines);
    }
  }

  // ----------------------------------------------------------------- dropping

  /** `collectReleasedItemKeys` */
  method CollectReleasedItemKeys(sections: seq<ReleaseSection>) returns (keys: set<Lines>)
    ensures keys == ReleasedBullets(PlainSections(sections))
  {
    hide IsUnreleased, SubsBullets, ReleaseSection.Plain;
    keys := {};
    ghost var plain := PlainSections(sections);
    assert plain[0..] == plain;
    for i := 0 to |sections|
      invariant keys + SectionsBullets(Filter(IsReleased, plain[i..])) == ReleasedBullets(plain)
    {
      ReleasedStep(plain, i);
      if IsReleased(sections[i].Plain()) {
        var more := CollectKeys(sections[i].subs);
        SubsOfPlain(sections[i]);
        keys := keys + more;
      }
    }
    assert plain[|sections|..] == [];
  }

  lemma SubsOfPlain(s: ReleaseSection)
    ensures s.Plain().subs == PlainSubs(s.subs) && s.Plain().heading == s.heading
  {}

  lemma ReleasedStep(ss: seq<Section>, i: nat)
    requires i < |ss|
    ensures SectionsBullets(Filter(IsReleased, ss[i..]))
         == (if IsReleased(ss[i]) then SubsBullets(ss[i].subs) else {}) + SectionsBullets(Filter(IsReleased, ss[i + 1..]))
  {
    hide IsUnreleased, SubsBullets;
    assert ss[i..][1..] == ss[i + 1..];
    var rest := Filter(IsReleased, ss[i + 1..]);
    SectionsBulletsCons(ss[i], rest);
    assert [] + rest == rest;
  }

  method CollectKeys(subs: seq<Subsection>) returns (keys: set<Lines>)
    ensures keys == SubsBullets(PlainSubs(subs))
  {
    hide Bullets, ItemsIn;
    keys := {};
    ghost var plain := PlainSubs(subs);
    assert plain[..0] == [];
    for j := 0 to |subs|
      invariant keys == SubsBullets(plain[..j])
    {
      var items := ParseItems(subs[j].lines);
      ItemTexts(subs[j].lines);
      assert LinesOf(items) == Bullets(plain[j].lines);
      assert plain[..j + 1] == plain[..j] + [plain[j]];
      SubsBulletsAppend(plain[..j], [plain[j]]);
      SubsBulletsOne(plain[j]);
      keys := keys + ToSet(LinesOf(items));
    }
    assert plain[..|subs|] == plain;
  }

  /** The body of one subsection without the items in `releasedKeys`. */
  method DropFrom(subsection: Subsection, releasedKeys: set<Lines>) returns (r: Subsection)
    requires Increasing(subsection.lines)
    ensures r.Plain() == Sub(subsection.title, DropItems(Texts(subsection.lines), releasedKeys))
  {
    hide ItemsIn, Cut, Preamble, IsBullet, TrimBlank, Increasing, BulletAt;
    var items := ParseItems(subsection.lines);
    SameCounts(subsection.lines);
    var flags := seq(|items|, k requires 0 <= k < |items| => items[k].lines in releasedKeys);
    assert flags == KeyFlags(Cut(IsBullet, Texts(subsection.lines)), releasedKeys);
    KeepIsSpared(Cut(IsBullet, Texts(subsection.lines)), releasedKeys);
    var duplicates, rest := TakeItems(subsection.lines, items, flags);
    r := Subsection(subsection.title, rest);
  }

  method DropFromSection(section: ReleaseSection, releasedKeys: set<Lines>) returns (r: ReleaseSection)
    requires forall j :: 0 <= j < |section.subs| ==> Increasing(section.subs[j].lines)
    ensures r.Plain() == section.Plain().(subs := DropSubs(section.Plain().subs, releasedKeys))
    ensures r.heading == section.heading
  {
    hide DropItems, Increasing;
    var subs: seq<Subsection> := [];
    ghost var plain := PlainSubs(section.subs);
    assert plain[0..] == plain && PlainSubs([]) + DropSubs(plain, releasedKeys) == DropSubs(plain, releasedKeys);
    for j := 0 to |section.subs|
      invariant PlainSubs(subs) + DropSubs(plain[j..], releasedKeys) == DropSubs(plain, releasedKeys)
    {
      var sub := DropFrom(section.subs[j], releasedKeys);
      assert plain[j..][1..] == plain[j + 1..];
      PlainSubsAppend(subs, sub);
      assert PlainSubs(subs) + ([sub.Plain()] + DropSubs(plain[j + 1..], releasedKeys)) == PlainSubs(subs) + [sub.Plain()] + DropSubs(plain[j + 1..], releasedKeys);
      subs := subs + [sub];
    }
    assert plain[|plain|..] == [] && PlainSubs(subs) + [] == PlainSubs(subs);
    r := section.(subs := subs);
  }

  // ---------------------------------------------------------------- promotion

  /** No bullet of the lines has a promotable number. */
  ghost predicate NonePromotable(lines: NumberedLines, promotable: set<nat>) {
    forall i :: 0 <= i < |lines| && BulletAt(lines[i]) ==> lines[i].lineNumber !in promotable
  }

  lemma FromAppend(a: NumberedLines, b: NumberedLines, n: nat)
    requires From(a + b, n)
    ensures From(a, n) && From(b, n + |a|)
  {
    hide From;
    FromSlice(a + b, n, 0, |a|);
    FromSlice(a + b, n, |a|, |a + b|);
    assert (a + b)[0..|a|] == a && (a + b)[|a|..|a + b|] == b;
  }

  lemma FromHead(a: NumberedLines, n: nat)
    requires From(a, n) && a != []
    ensures a[0].lineNumber == n
  {
    assert a[0] == Numbered(Texts(a), n)[0];
  }

  /** Choosing chunks by the number of their first line, and by counting lines, is the same. */
  lemma {:induction false} KeptIsSpared(cs: seq<NumberedLines>, n: nat, promotable: set<nat>, flags: seq<bool>)
    requires AreChunks(BulletAt, cs) && From(Flatten(cs), n)
    requires |flags| == |cs| == |ItemsOfChunks(cs)| && forall k :: 0 <= k < |cs| ==> flags[k] == (ItemsOfChunks(cs)[k].startLine in promotable)
    ensures Kept(TextsOf(cs), n, promotable) == Spared(TextsOf(cs), flags)
    ensures Moved(TextsOf(cs), n, promotable) == LinesOf(Chosen(ItemsOfChunks(cs), flags))
    decreases |cs|
  {
    hide BulletAt, From, TrimBlank, Texts;
    if cs == [] {
      assert LinesOf(Chosen(ItemsOfChunks(cs), flags)) == [];
    } else {
      ChunkItems(cs);
      var rest, items := cs[1..], ItemsOfChunks(cs[1..]);
      assert IsChunk(BulletAt, cs[0]);
      FromAppend(cs[0], Flatten(rest), n);
      FromHead(cs[0], n);
      assert AreChunks(BulletAt, rest);
      ChunkItems(rest);
      forall k | 0 <= k < |rest| ensures flags[1..][k] == (items[k].startLine in promotable) {
        assert items[k] == ItemOf(rest[k]) && rest[k] == cs[k + 1];
      }
      KeptIsSpared(rest, n + |cs[0]|, promotable, flags[1..]);
      assert TextsOf(cs)[1..] == TextsOf(rest);
      assert ItemsOfChunks(cs)[1..] == items;
      LinesOfCons(ItemOf(cs[0]), Chosen(items, flags[1..]));
      assert [] + Chosen(items, flags[1..]) == Chosen(items, flags[1..]);
    }
  }

  lemma LinesOfCons(item: ParsedItem, items: seq<ParsedItem>)
    ensures LinesOf([item] + items) == [item.lines] + LinesOf(items)
  {}

  lemma {:induction false} SparedSettled(cs: seq<NumberedLines>, promotable: set<nat>, flags: seq<bool>)
    requires AreChunks(BulletAt, cs) && |flags| == |cs|
    requires forall k :: 0 <= k < |cs| && cs[k] != [] ==> flags[k] == (cs[k][0].lineNumber in promotable)
    ensures NonePromotable(Flatten(Spared(cs, flags)), promotable)
  {
    hide BulletAt;
    if cs != [] {
      assert IsChunk(BulletAt, cs[0]);
      SparedSettled(cs[1..], promotable, flags[1..]);
      var rest := Spared(cs[1..], flags[1..]);
      assert ([cs[0]] + rest)[1..] == rest && [] + rest == rest;
      if !flags[0] {
        ChunkSettled(cs[0], promotable);
        SettledAppend(cs[0], Flatten(rest), promotable);
      }
    }
  }

  lemma ChunkSettled(c: NumberedLines, promotable: set<nat>)
    requires IsChunk(BulletAt, c) && c[0].lineNumber !in promotable
    ensures NonePromotable(c, promotable)
  {
    hide BulletAt;
    forall i | 0 < i < |c| ensures !BulletAt(c[i]) {
      assert c[1..][i - 1] == c[i];
    }
  }

  lemma SettledAppend(a: NumberedLines, b: NumberedLines, promotable: set<nat>)
    requires NonePromotable(a, promotable) && NonePromotable(b, promotable)
    ensures NonePromotable(a + b, promotable)
  {
    hide BulletAt;
  }

  lemma LacksSettled(a: NumberedLines, promotable: set<nat>)
    requires Lacks(BulletAt, a)
    ensures NonePromotable(a, promotable)
  {
    hide BulletAt;
  }

  /** Where nothing is promotable no item is chosen. */
  lemma SettledChoosesNone(lines: NumberedLines, promotable: set<nat>, k: nat)
    requires NonePromotable(lines, promotable) && k < |ItemsIn(lines)|
    ensures ItemsIn(lines)[k].startLine !in promotable
  {
    hide BulletAt;
    CutParts(BulletAt, lines);
    var pre, cs := Preamble(BulletAt, lines), Cut(BulletAt, lines);
    ChunkItems(cs);
    assert IsChunk(BulletAt, cs[k]);
    InFlat(cs, k, 0);
    var n :| 0 <= n < |Flatten(cs)| && Flatten(cs)[n] == cs[k][0];
    assert lines[|pre| + n] == cs[k][0];
  }

  /** What promotion leaves of the lines of one subsection whose heading is at `line`. */
  function KeptLines(ls: Lines, line: nat, promotable: set<nat>): Lines {
    Preamble(IsBullet, ls) + Flatten(Kept(Cut(IsBullet, ls), line + 1 + |Preamble(IsBullet, ls)|, promotable))
  }

  function MovedItems(ls: Lines, line: nat, promotable: set<nat>): seq<Lines> {
    Moved(Cut(IsBullet, ls), line + 1 + |Preamble(IsBullet, ls)|, promotable)
  }

  /** The state a subsection is found in: not visited yet, with the numbers of the text; or
      visited already, with nothing left to promote. */
  ghost predicate Ready(lines: NumberedLines, line: nat, promotable: set<nat>, settled: bool) {
    if settled then NonePromotable(lines, promotable) else From(lines, line + 1)
  }

  lemma PromotableFlags(lines: NumberedLines, line: nat, promotable: set<nat>, flags: seq<bool>)
    requires From(lines, line + 1) && |flags| == |ItemsIn(lines)| == |Cut(BulletAt, lines)|
    requires |Cut(IsBullet, Texts(lines))| == |flags|
    requires forall k :: 0 <= k < |flags| ==> flags[k] == (ItemsIn(lines)[k].startLine in promotable)
    ensures Preamble(IsBullet, Texts(lines)) + Flatten(Spared(Cut(IsBullet, Texts(lines)), flags)) == KeptLines(Texts(lines), line, promotable)
    ensures LinesOf(Chosen(ItemsIn(lines), flags)) == MovedItems(Texts(lines), line, promotable)
    ensures NonePromotable(Preamble(BulletAt, lines) + Flatten(Spared(Cut(BulletAt, lines), flags)), promotable)
  {
    hide BulletAt, IsBullet, From, Spared, Chosen, NonePromotable, Kept, Moved, ItemsOfChunks, Texts, AreChunks, Lacks, Flatten, Cut, Preamble;
    var pre, cs := Preamble(BulletAt, lines), Cut(BulletAt, lines);
    CutParts(BulletAt, lines);
    CutTexts(lines);
    FromAppend(pre, Flatten(cs), line + 1);
    PreambleLength(lines);
    KeptIsSpared(cs, line + 1 + |pre|, promotable, flags);
    FlagsByHead(cs, promotable, flags);
    SparedSettled(cs, promotable, flags);
    LacksSettled(pre, promotable);
    SettledAppend(pre, Flatten(Spared(cs, flags)), promotable);
  }

  lemma PreambleLength(lines: NumberedLines)
    ensures |Texts(Preamble(BulletAt, lines))| == |Preamble(BulletAt, lines)|
  {}

  lemma FlagsByHead(cs: seq<NumberedLines>, promotable: set<nat>, flags: seq<bool>)
    requires AreChunks(BulletAt, cs) && |flags| == |cs| == |ItemsOfChunks(cs)|
    requires forall k :: 0 <= k < |flags| ==> flags[k] == (ItemsOfChunks(cs)[k].startLine in promotable)
    ensures forall k :: 0 <= k < |cs| && cs[k] != [] ==> flags[k] == (cs[k][0].lineNumber in promotable)
  {
    hide BulletAt;
    ChunkItems(cs);
    forall k | 0 <= k < |cs| ensures flags[k] == (cs[k][0].lineNumber in promotable) {
      assert ItemsOfChunks(cs)[k] == ItemOf(cs[k]);
    }
  }

  /** Takes the promotable items out of one subsection. */
  method PromoteFrom(subsection: Subsection, promotable: set<nat>, ghost line: nat, ghost settled: bool) returns (r: Subsection, items: seq<ParsedItem>)
    requires Ready(subsection.lines, line, promotable, settled)
    ensures r.title == subsection.title && NonePromotable(r.lines, promotable)
    ensures settled ==> r == subsection && items == []
    ensures !settled ==> Texts(r.lines) == KeptLines(Texts(subsection.lines), line, promotable)
    ensures !settled ==> LinesOf(items) == MovedItems(Texts(subsection.lines), line, promotable)
    ensures items == [] ==> r == subsection
  {
    hide BulletAt, IsBullet, From, Spared, Chosen, NonePromotable, KeptLines, MovedItems, ItemsIn, Cut, Preamble, Texts, Increasing;
    var lines := subsection.lines;
    var parsed := ParseItems(lines);
    SameCounts(lines);
    var flags := NumberFlags(parsed, promotable);
    if settled {
      forall k | 0 <= k < |parsed| ensures !flags[k] {
        SettledChoosesNone(lines, promotable, k);
      }
      SparedAll(parsed, flags);
    } else {
      PromotableFlags(lines, line, promotable, flags);
      FromIncreasing(lines, line + 1);
      RemainingTexts(lines, flags);
    }
    items := Select(parsed, flags);
    if |items| == 0 {
      UnchangedLines(lines, parsed, flags);
      return subsection, [];
    }
    var rest := RemoveItems(lines, items, flags);
    r := Subsection(subsection.title, rest);
  }

  lemma UnchangedLines(lines: NumberedLines, items: seq<ParsedItem>, flags: seq<bool>)
    requires items == ItemsIn(lines) && |flags| == |items| == |Cut(BulletAt, lines)| && Chosen(items, flags) == []
    ensures Preamble(BulletAt, lines) + Flatten(Spared(Cut(BulletAt, lines), flags)) == lines
  {
    hide BulletAt, ItemsIn;
    NoneChosen(items, flags);
    SparedAll(Cut(BulletAt, lines), flags);
    CutParts(BulletAt, lines);
  }

  /** `subsectionHasItem` */
  method SubsectionHasItem(subsection: Subsection, itemLines: Lines) returns (b: bool)
    ensures b <==> TrimBlank(itemLines) == [] || TrimBlank(itemLines) in Bullets(Texts(subsection.lines))
  {
    hide Bullets, ItemsIn, TrimBlank, Texts;
    var wanted := TrimBlankLines(itemLines);
    if |wanted| == 0 {
      return true;
    }
    var items := ParseItems(subsection.lines);
    ItemTexts(subsection.lines);
    for k := 0 to |items|
      invariant forall l :: 0 <= l < k ==> items[l].lines != wanted
    {
      if items[k].lines == wanted {
        return true;
      }
    }
    return false;
  }

  /** The appending loop for the items of one subsection. */
  method AddAll(target: Subsection, items: seq<ParsedItem>) returns (r: Subsection)
    requires AreItems(LinesOf(items))
    ensures r.Plain() == Sub(target.title, AddItems(Texts(target.lines), LinesOf(items)))
  {
    hide AreItems, AppendLines, Bullets, TrimBlank, Texts;
    r := target;
    ghost var lines := LinesOf(items);
    assert lines[0..] == lines;
    for k := 0 to |items|
      invariant r.title == target.title
      invariant AddItems(Texts(r.lines), lines[k..]) == AddItems(Texts(target.lines), lines)
    {
      ItemIsItem(lines, k);
      assert lines[k..][0] == lines[k] && lines[k..][1..] == lines[k + 1..];
      var has := SubsectionHasItem(r, items[k].lines);
      if !has {
        r := AppendSubsectionLines(r, items[k].lines);
      }
    }
    assert lines[|items|..] == [];
  }

  lemma ItemIsItem(items: seq<Lines>, k: nat)
    requires AreItems(items) && k < |items|
    ensures TrimBlank(items[k]) == items[k] != []
  {
    hide IsItem, TrimBlank;
    assert IsItem(items[k]);
    ItemFacts(items[k]);
  }

  /** `findLast` by title. */
  method FindLastSubsection(subs: seq<Subsection>, title: string) returns (k: nat)
    ensures k == FindLast(PlainSubs(subs), title)
  {
    k := |subs|;
    var i := |subs|;
    ghost var plain := PlainSubs(subs);
    assert plain[..|subs|] == plain;
    while i > 0
      invariant 0 <= i <= |subs| && k == |subs|
      invariant FindLast(plain, title) == if FindLast(plain[..i], title) == i then |subs| else FindLast(plain[..i], title)
    {
      i := i - 1;
      assert plain[..i + 1][..i] == plain[..i];
      if subs[i].title == title {
        return i;
      }
    }
  }

  /** `getOrCreateSubsection`, then the items. */
  method AddTo(u: ReleaseSection, title: string, items: seq<ParsedItem>) returns (r: ReleaseSection)
    requires AreItems(LinesOf(items)) && items != []
    ensures r.Plain() == AddToSection(u.Plain(), title, LinesOf(items)) && r.heading == u.heading && r.subs != []
  {
    hide AreItems, AddItems, FindLast, Texts;
    var k := FindLastSubsection(u.subs, title);
    if k < |u.subs| {
      FindLastTitle(PlainSubs(u.subs), title);
      var target := AddAll(u.subs[k], items);
      r := u.(subs := u.subs[k := target]);
      assert PlainSubs(r.subs) == PlainSubs(u.subs)[k := target.Plain()];
    } else {
      NoTexts();
      var target := AddAll(Subsection(title, []), items);
      r := u.(subs := u.subs + [target]);
      PlainSubsAppend(u.subs, target);
    }
  }

  lemma FindLastTitle(subs: seq<Sub>, title: string)
    ensures FindLast(subs, title) < |subs| ==> subs[FindLast(subs, title)].title == title
  {}

  lemma NoTexts()
    ensures Texts([]) == []
  {}

  // One step of promotion, in terms of the texts.

  lemma PromoteSubsStep(u: Section, subs: seq<Sub>, line: nat, promotable: set<nat>)
    requires subs != []
    ensures var ls := subs[0].lines;
      var u1 := AddToSection(u, subs[0].title, MovedItems(ls, line, promotable));
      var (u2, rest) := PromoteSubs(u1, subs[1..], line + 1 + |ls|, promotable);
      PromoteSubs(u, subs, line, promotable) == (u2, [Sub(subs[0].title, KeptLines(ls, line, promotable))] + rest)
  {
    hide IsBullet, Kept, Moved, AddToSection;
  }

  /** How far the loop over the subsections of one section has come. */
  ghost predicate SubsProgress(u0: Section, subs: seq<Sub>, line: nat, promotable: set<nat>, j: nat, u: Section, done: seq<Sub>)
    requires j <= |subs|
  {
    var (u2, rest) := PromoteSubs(u, subs[j..], line + SubsHeight(subs[..j]), promotable);
    PromoteSubs(u0, subs, line, promotable) == (u2, done + rest)
  }

  lemma SubsProgressStart(u: Section, subs: seq<Sub>, line: nat, promotable: set<nat>)
    ensures SubsProgress(u, subs, line, promotable, 0, u, [])
  {
    assert subs[0..] == subs && subs[..0] == [];
    var (u2, rest) := PromoteSubs(u, subs, line, promotable);
    assert [] + rest == rest;
  }

  lemma SubsProgressStep(u0: Section, subs: seq<Sub>, line: nat, promotable: set<nat>, j: nat, u: Section, done: seq<Sub>)
    requires j < |subs| && SubsProgress(u0, subs, line, promotable, j, u, done)
    ensures var at := line + SubsHeight(subs[..j]);
      SubsProgress(u0, subs, line, promotable, j + 1, AddToSection(u, subs[j].title, MovedItems(subs[j].lines, at, promotable)),
                   done + [Sub(subs[j].title, KeptLines(subs[j].lines, at, promotable))])
  {
    hide AddToSection, MovedItems, KeptLines, PromoteSubs;
    var at := line + SubsHeight(subs[..j]);
    assert subs[j..][0] == subs[j] && subs[j..][1..] == subs[j + 1..] && subs[..j + 1] == subs[..j] + [subs[j]];
    SubsHeightAppend(subs[..j], subs[j]);
    PromoteSubsStep(u, subs[j..], at, promotable);
    var u1 := AddToSection(u, subs[j].title, MovedItems(subs[j].lines, at, promotable));
    var s := Sub(subs[j].title, KeptLines(subs[j].lines, at, promotable));
    var (u2, rest) := PromoteSubs(u1, subs[j + 1..], at + 1 + |subs[j].lines|, promotable);
    assert done + ([s] + rest) == done + [s] + rest;
  }

  lemma SubsProgressEnd(u0: Section, subs: seq<Sub>, line: nat, promotable: set<nat>, u: Section, done: seq<Sub>)
    requires SubsProgress(u0, subs, line, promotable, |subs|, u, done)
    ensures PromoteSubs(u0, subs, line, promotable) == (u, done)
  {
    assert subs[|subs|..] == [] && done + [] == done;
  }

  lemma {:induction false} SubLineHeight(subs: seq<Sub>, line: nat, j: nat)
    requires j < |subs|
    ensures SubLine(subs, line, j) == line + SubsHeight(subs[..j]) + 1
  {
    if j > 0 {
      SubLineHeight(subs[1..], line + 1 + |subs[0].lines|, j - 1);
      assert subs[..j][1..] == subs[1..][..j - 1];
    }
  }

  /** The state a section is found in. */
  ghost predicate SectionReady(s: ReleaseSection, line: nat, promotable: set<nat>, settled: bool) {
    if settled then SectionSettled(s, promotable) else SectionPlaced(s, line)
  }

  ghost predicate SectionSettled(s: ReleaseSection, promotable: set<nat>) {
    forall j :: 0 <= j < |s.subs| ==> NonePromotable(s.subs[j].lines, promotable)
  }

  lemma ReadyAt(s: ReleaseSection, line: nat, promotable: set<nat>, settled: bool, j: nat)
    requires SectionReady(s, line, promotable, settled) && j < |s.subs|
    ensures Ready(s.subs[j].lines, line + 1 + |s.leading| + SubsHeight(PlainSubs(s.subs)[..j]), promotable, settled)
  {
    hide NonePromotable, From;
    SubLineHeight(PlainSubs(s.subs), line + 1 + |s.leading|, j);
  }

  lemma MovedAreItems(ls: Lines, line: nat, promotable: set<nat>)
    ensures AreItems(MovedItems(ls, line, promotable))
  {
    hide IsBullet, AreChunks, Lacks, Cut, Preamble, AreItems, Keys, Flatten, Moved, Kept;
    CutParts(IsBullet, ls);
    MovedAndKept(Cut(IsBullet, ls), line + 1 + |Preamble(IsBullet, ls)|, promotable);
  }

  lemma AddNone(u: Section, title: string)
    ensures AddToSection(u, title, []) == u
  {}

  /** What the visit of one subsection does, in terms of the texts. */
  lemma VisitStep(u0: Section, plain: seq<Sub>, at: nat, promotable: set<nat>, j: nat, u: ReleaseSection, done: seq<Subsection>,
                  sub: Subsection, items: seq<ParsedItem>, u2: ReleaseSection)
    requires j < |plain| && SubsProgress(u0, plain, at, promotable, j, u.Plain(), PlainSubs(done))
    requires sub.Plain() == Sub(plain[j].title, KeptLines(plain[j].lines, at + SubsHeight(plain[..j]), promotable))
    requires LinesOf(items) == MovedItems(plain[j].lines, at + SubsHeight(plain[..j]), promotable)
    requires u2.Plain() == AddToSection(u.Plain(), plain[j].title, LinesOf(items))
    ensures SubsProgress(u0, plain, at, promotable, j + 1, u2.Plain(), PlainSubs(done + [sub]))
  {
    hide AddToSection, MovedItems, KeptLines, SubsProgress, ReleaseSection.Plain, Subsection.Plain, PlainSubs;
    SubsProgressStep(u0, plain, at, promotable, j, u.Plain(), PlainSubs(done));
    PlainSubsAppend(done, sub);
  }

  /** The visit of one released section: each subsection gives up its promotable items to `u`. */
  method PromoteFromSection(section: ReleaseSection, u: ReleaseSection, promotable: set<nat>, ghost line: nat, ghost settled: bool)
    returns (r: ReleaseSection, u2: ReleaseSection, moved: bool)
    requires SectionReady(section, line, promotable, settled)
    ensures r.heading == section.heading && r.leading == section.leading && SectionSettled(r, promotable)
    ensures settled ==> !moved
    ensures !moved ==> u2 == u && r == section
    ensures moved ==> u2.heading == u.heading && u2.subs != []
    ensures !settled ==> PromoteSubs(u.Plain(), PlainSubs(section.subs), line + 1 + |section.leading|, promotable) == (u2.Plain(), PlainSubs(r.subs))
  {
    hide NonePromotable, Ready, SectionReady, KeptLines, MovedItems, PromoteSubs, SubsProgress, Texts, AreItems, AddToSection;
    ghost var plain, at := PlainSubs(section.subs), line + 1 + |section.leading|;
    var subs: seq<Subsection> := [];
    u2, moved := u, false;
    SubsProgressStart(u.Plain(), plain, at, promotable);
    NoPlainSubs();
    for j := 0 to |section.subs|
      invariant |subs| == j && forall i :: 0 <= i < j ==> NonePromotable(subs[i].lines, promotable)
      invariant settled ==> !moved
      invariant !moved ==> u2 == u && subs == section.subs[..j]
      invariant moved ==> u2.heading == u.heading && u2.subs != []
      invariant !settled ==> SubsProgress(u.Plain(), plain, at, promotable, j, u2.Plain(), PlainSubs(subs))
    {
      ReadyAt(section, line, promotable, settled, j);
      var sub, items := PromoteFrom(section.subs[j], promotable, at + SubsHeight(plain[..j]), settled);
      MovedAreItems(plain[j].lines, at + SubsHeight(plain[..j]), promotable);
      ghost var before := u2;
      if |items| > 0 {
        u2 := AddTo(u2, sub.title, items);
        moved := true;
      } else {
        AddNone(u2.Plain(), sub.title);
      }
      if !settled {
        VisitStep(u.Plain(), plain, at, promotable, j, before, subs, sub, items, u2);
      }
      assert section.subs[..j + 1] == section.subs[..j] + [section.subs[j]];
      subs := subs + [sub];
    }
    assert section.subs[..|section.subs|] == section.subs;
    if !settled {
      SubsProgressEnd(u.Plain(), plain, at, promotable, u2.Plain(), PlainSubs(subs));
    }
    r := section.(subs := subs);
  }
}
