/** When merged bodies come out compact, read off the bodies before merging
    (scripts/fix-changelogs.ts:218-232, 359-401). */
module ChangelogGaps {
  import opened Lists
  import opened Items
  import opened StableSort
  import opened ChangelogText
  import opened ChangelogDocument
  import opened ChangelogFix
  import opened ChangelogItems
  import opened ChangelogStability
  import opened ChangelogExact

  // ------------------------------------------------------- gaps before items

  /** No element of `p` stands directly before a marked one. */
  predicate GapFree<T>(m: T -> bool, p: T -> bool, s: seq<T>) {
    forall i :: 0 <= i < |s| - 1 && m(s[i + 1]) ==> !p(s[i])
  }

  predicate EndsOutside<T>(p: T -> bool, s: seq<T>) {
    s != [] ==> !p(s[|s| - 1])
  }

  lemma GapFreeAppend<T>(m: T -> bool, p: T -> bool, a: seq<T>, b: seq<T>)
    ensures GapFree(m, p, a + b) <==>
            GapFree(m, p, a) && GapFree(m, p, b) && (a != [] && b != [] && m(b[0]) ==> !p(a[|a| - 1]))
  {
    var s := a + b;
    if GapFree(m, p, s) {
      forall i | 0 <= i < |a| - 1 && m(a[i + 1]) ensures !p(a[i]) { assert s[i] == a[i] && s[i + 1] == a[i + 1]; }
      forall i | 0 <= i < |b| - 1 && m(b[i + 1]) ensures !p(b[i]) { assert s[|a| + i] == b[i] && s[|a| + i + 1] == b[i + 1]; }
      if a != [] && b != [] { assert s[|a| - 1] == a[|a| - 1] && s[|a| - 1 + 1] == b[0]; }
    }
  }

  lemma ChunkIsGapFree<T>(m: T -> bool, p: T -> bool, c: seq<T>)
    requires IsChunk(m, c)
    ensures GapFree(m, p, c)
  {
    forall j | 1 <= j < |c| ensures !m(c[j]) { assert c[j] == c[1..][j - 1]; }
  }

  /** Items laid end to end have no gap and end outside `p` exactly when each ends so. */
  lemma {:induction false} FlatGapFree<T>(m: T -> bool, p: T -> bool, cs: seq<seq<T>>)
    requires AreChunks(m, cs)
    ensures GapFree(m, p, Flatten(cs)) && EndsOutside(p, Flatten(cs)) <==> forall i :: 0 <= i < |cs| ==> EndsOutside(p, cs[i])
    ensures cs != [] ==> Flatten(cs) != [] && m(Flatten(cs)[0])
  {
    if cs != [] {
      var c, rest := cs[0], Flatten(cs[1..]);
      assert IsChunk(m, c);
      FlatGapFree(m, p, cs[1..]);
      ChunkIsGapFree(m, p, c);
      GapFreeAppend(m, p, c, rest);
      assert (forall i :: 0 <= i < |cs| ==> EndsOutside(p, cs[i])) <==> EndsOutside(p, c) && forall i :: 0 <= i < |cs[1..]| ==> EndsOutside(p, cs[1..][i]) by {
        assert cs == [c] + cs[1..];
      }
    }
  }

  /** A trimmed list is compact exactly when it starts outside the items or has no gap. */
  lemma CompactExactly<T(!new)>(m: T -> bool, p: T -> bool, t: seq<T>)
    requires Apart(m, p) && Trimmed(p, t) && t != []
    ensures Compact(m, p, t) == t <==> !m(t[0]) || GapFree(m, p, t)
  {
    hide Apart, TrimBy, GapFree;
    TrimFixed(p, t);
    if m(t[0]) {
      var cs := Cut(m, t);
      HeadMarked(m, t);
      CutParts(m, t);
      assert [] + Flatten(cs) == t;
      TrimChunks(m, p, cs);
      FlatGapFree(m, p, cs);
      FlatGapFree(m, p, TrimEach(p, cs));
      if GapFree(m, p, t) {
        EachChunkTrimmed(m, p, cs);
      } else {
        forall i | 0 <= i < |cs| ensures EndsOutside(p, TrimEach(p, cs)[i]) {}
      }
    }
  }

  lemma EachChunkTrimmed<T(!new)>(m: T -> bool, p: T -> bool, cs: seq<seq<T>>)
    requires Apart(m, p) && AreChunks(m, cs) && forall i :: 0 <= i < |cs| ==> EndsOutside(p, cs[i])
    ensures TrimEach(p, cs) == cs
  {
    hide TrimBy;
    forall i | 0 <= i < |cs| ensures TrimBy(p, cs[i]) == cs[i] {
      assert IsChunk(m, cs[i]);
      TrimFixed(p, cs[i]);
    }
  }

  /** Compaction keeps the last visible line. */
  lemma CompactEnd<T(!new)>(m: T -> bool, p: T -> bool, s: seq<T>)
    requires Apart(m, p) && TrimBy(p, s) != []
    ensures Compact(m, p, s) != [] && Compact(m, p, s)[|Compact(m, p, s)| - 1] == TrimBy(p, s)[|TrimBy(p, s)| - 1]
  {
    hide Apart, TrimBy, Flatten, Cut, TrimEach;
    var t := TrimBy(p, s);
    TrimIsTrimmed(p, s);
    if m(t[0]) {
      HeadMarked(m, t);
      CutParts(m, t);
      assert [] + Flatten(Cut(m, t)) == t;
      FlatEnd(m, p, Cut(m, t));
    }
  }

  lemma FlatEnd<T(!new)>(m: T -> bool, p: T -> bool, cs: seq<seq<T>>)
    requires Apart(m, p) && AreChunks(m, cs) && cs != [] && Flatten(cs) != [] && EndsOutside(p, Flatten(cs))
    ensures var (a, b) := (Flatten(cs), Flatten(TrimEach(p, cs))); b != [] && b[|b| - 1] == a[|a| - 1]
  {
    hide Apart, TrimBy;
    var init, last := cs[..|cs| - 1], cs[|cs| - 1];
    assert cs == init + [last] && IsChunk(m, last);
    FlatLast(init, last);
    LastIsTrimmed(m, p, last);
    assert TrimEach(p, cs) == TrimEach(p, init) + [last];
    FlatLast(TrimEach(p, init), last);
  }

  lemma FlatLast<T>(init: seq<seq<T>>, last: seq<T>)
    requires last != []
    ensures var s := Flatten(init + [last]); s != [] && s[|s| - 1] == last[|last| - 1]
  {
    FlattenAppend(init, [last]);
    assert Flatten([last]) == last;
  }

  lemma LastIsTrimmed<T(!new)>(m: T -> bool, p: T -> bool, c: seq<T>)
    requires Apart(m, p) && IsChunk(m, c) && !p(c[|c| - 1])
    ensures TrimBy(p, c) == c
  {
    TrimFixed(p, c);
  }

  // ------------------------------------------------------------ one merge step

  /** How a body begins and ends: with an item's line, or with something else. */
  datatype Edges = Edges(opens: bool, ends: bool)

  predicate Visible(ls: Lines) {
    TrimBlank(ls) != []
  }

  function EdgesOf(ls: Lines): Edges
    requires Visible(ls)
  {
    var t := TrimBlank(ls);
    Edges(IsBullet(t[0]), IsBullet(t[|t| - 1]))
  }

  /** `ls`, appended to a body with these edges, leaves no blank line that compaction would
      remove: between two items there is no separator, and other text has no gap of its own. */
  predicate JoinsTight(before: Edges, ls: Lines)
    requires Visible(ls)
  {
    before.opens ==>
      if EdgesOf(ls).opens then before.ends else GapFree(IsBullet, IsBlank, TrimBlank(ls))
  }

  lemma CompactEdges(ls: Lines)
    requires Visible(ls)
    ensures var c := CompactLines(ls);
            && Visible(c) && TrimBlank(c) == c && EdgesOf(c) == EdgesOf(ls)
            && (EdgesOf(ls).opens ==> GapFree(IsBullet, IsBlank, c))
            && (!EdgesOf(ls).opens ==> c == TrimBlank(ls))
  {
    hide IsBullet, IsBlank, TrimBy, GapFree, Apart;
    BulletsApart();
    CompactKeepsStart(ls);
    CompactShape(IsBullet, IsBlank, ls);
    CompactEnd(IsBullet, IsBlank, ls);
    CompactTwice(IsBullet, IsBlank, ls);
    CompactExactly(IsBullet, IsBlank, CompactLines(ls));
  }

  /** A trimmed body is settled exactly when it opens with other text or has no gap. */
  lemma SettledIs(title: string, ls: Lines)
    requires Visible(ls) && TrimBlank(ls) == ls
    ensures Settled(Sub(title, ls)) <==> !EdgesOf(ls).opens || GapFree(IsBullet, IsBlank, ls)
  {
    hide IsBullet, IsBlank, TrimBy, GapFree, Apart, Compact;
    BulletsApart();
    TrimIsTrimmed(IsBlank, ls);
    CompactExactly(IsBullet, IsBlank, ls);
  }

  lemma BlankIsNoBullet()
    ensures IsBlank("") && !IsBullet("")
  {
    EmptyIsBlank();
  }

  /** Appending a compacted body to a merged one keeps it settled exactly when it joins tight. */
  lemma AppendSettles(title: string, target: Lines, ls: Lines)
    requires Visible(target) && TrimBlank(target) == target && Visible(ls)
    ensures var all := AppendLines(target, CompactLines(ls));
            && Visible(all) && TrimBlank(all) == all
            && EdgesOf(all) == Edges(EdgesOf(target).opens, EdgesOf(ls).ends)
            && (Settled(Sub(title, all)) <==> Settled(Sub(title, target)) && JoinsTight(EdgesOf(target), ls))
  {
    hide IsBullet, IsBlank, TrimBy, GapFree, Settled, CompactLines;
    var more := CompactLines(ls);
    CompactEdges(ls);
    AppendTrimmed(target, more);
    var sep := if IsBullet(target[|target| - 1]) && IsBullet(more[0]) then [] else [""];
    var all := target + sep + more;
    assert AppendLines(target, more) == all;
    assert all[0] == target[0] && all[|all| - 1] == more[|more| - 1];
    SettledIs(title, all);
    SettledIs(title, target);
    BlankIsNoBullet();
    TrimIsTrimmed(IsBlank, target);
    JoinGaps(target, sep, more);
  }

  lemma JoinGaps(target: Lines, sep: Lines, more: Lines)
    requires target != [] && more != [] && !IsBlank(target[|target| - 1])
    requires sep == [] || sep == [""]
    ensures GapFree(IsBullet, IsBlank, target + sep + more) <==>
            GapFree(IsBullet, IsBlank, target) && GapFree(IsBullet, IsBlank, more) && (sep == [""] ==> !IsBullet(more[0]))
  {
    hide IsBullet, IsBlank;
    BlankIsNoBullet();
    GapFreeAppend(IsBullet, IsBlank, target, sep + more);
    GapFreeAppend(IsBullet, IsBlank, sep, more);
    assert target + sep + more == target + (sep + more);
    assert GapFree(IsBullet, IsBlank, sep);
    assert sep == [] ==> sep + more == more;
  }

  // ------------------------------------------------------------ all merge steps

  /** Going through the bodies of a section in order, each one that follows another under its
      title joins tight. `seen` has the edges of what stands under each title so far. */
  predicate MergesTight(seen: map<string, Edges>, subs: seq<Sub>)
    decreases |subs|
  {
    subs == [] ||
    var (title, ls, rest) := (subs[0].title, subs[0].lines, subs[1..]);
    if !Visible(ls) then MergesTight(seen, rest)
    else if title in seen then JoinsTight(seen[title], ls) && MergesTight(seen[title := Edges(seen[title].opens, EdgesOf(ls).ends)], rest)
    else MergesTight(seen[title := EdgesOf(ls)], rest)
  }

  /** `seen` is what the merged bodies look like. */
  ghost predicate SeenIs(acc: seq<Sub>, seen: map<string, Edges>) {
    && Tight(acc) && UniqueTitles(acc) && seen.Keys == Titles(acc)
    && forall k :: 0 <= k < |acc| ==> acc[k].title in seen && Visible(acc[k].lines) && seen[acc[k].title] == EdgesOf(acc[k].lines)
  }

  lemma AllSettledReplaced(acc: seq<Sub>, k: nat, s: Sub)
    requires k < |acc| && (Settled(s) ==> Settled(acc[k]))
    ensures AllSettled(acc[k := s]) <==> AllSettled(acc) && Settled(s)
  {
    hide Settled;
    if AllSettled(acc[k := s]) {
      assert acc[k := s][k] == s;
      forall i | 0 <= i < |acc| ensures Settled(acc[i]) {
        assert i != k ==> acc[k := s][i] == acc[i];
      }
    }
  }

  lemma AllSettledAppended(acc: seq<Sub>, s: Sub)
    ensures AllSettled(acc + [s]) <==> AllSettled(acc) && Settled(s)
  {
    hide Settled;
    if AllSettled(acc + [s]) {
      assert (acc + [s])[|acc|] == s;
      forall i | 0 <= i < |acc| ensures Settled(acc[i]) {
        assert (acc + [s])[i] == acc[i];
      }
    }
  }

  lemma InTitles(acc: seq<Sub>, title: string)
    ensures Find(acc, title) < |acc| <==> title in Titles(acc)
  {
    if title in Titles(acc) {
      var s :| s in acc && s.title == title;
    }
    if Find(acc, title) < |acc| { assert acc[Find(acc, title)] in acc; }
  }

  lemma StepJoins(acc: seq<Sub>, s: Sub, seen: map<string, Edges>)
    requires SeenIs(acc, seen) && Visible(s.lines) && s.title in seen
    ensures SeenIs(MergeSub(acc, s), seen[s.title := Edges(seen[s.title].opens, EdgesOf(s.lines).ends)])
    ensures AllSettled(MergeSub(acc, s)) <==> AllSettled(acc) && JoinsTight(seen[s.title], s.lines)
  {
    hide TrimBlank, CompactLines, AppendLines, EdgesOf, JoinsTight, Settled, AllSettled, UniqueTitles, Titles, SeenIs, MergeSub;
    var k := Find(acc, s.title);
    SeenAt(acc, seen, s.title);
    AppendSettles(s.title, acc[k].lines, s.lines);
    var merged := Sub(s.title, AppendLines(acc[k].lines, CompactLines(s.lines)));
    MergeIsReplace(acc, s);
    AllSettledReplaced(acc, k, merged);
    if AllSettled(acc) { SettledAt(acc, k); }
    SeenReplaced(acc, seen, k, merged);
  }

  lemma MergeIsReplace(acc: seq<Sub>, s: Sub)
    requires Visible(s.lines) && Find(acc, s.title) < |acc|
    ensures var k := Find(acc, s.title);
            MergeSub(acc, s) == acc[k := Sub(s.title, AppendLines(acc[k].lines, CompactLines(s.lines)))]
  {
    hide TrimBlank, CompactLines, AppendLines, Find;
    CompactKeepsStart(s.lines);
  }

  lemma SeenAt(acc: seq<Sub>, seen: map<string, Edges>, title: string)
    requires SeenIs(acc, seen) && title in seen
    ensures var k := Find(acc, title);
            && k < |acc| && acc[k] == Sub(title, acc[k].lines) && Visible(acc[k].lines) && TrimBlank(acc[k].lines) == acc[k].lines
            && seen[title] == EdgesOf(acc[k].lines)
  {
    hide TrimBlank, EdgesOf, Find, Titles, UniqueTitles;
    InTitles(acc, title);
  }

  lemma SeenReplaced(acc: seq<Sub>, seen: map<string, Edges>, k: nat, s: Sub)
    requires SeenIs(acc, seen) && k < |acc| && acc[k].title == s.title && Visible(s.lines) && TrimBlank(s.lines) == s.lines
    ensures SeenIs(acc[k := s], seen[s.title := EdgesOf(s.lines)])
  {
    hide TrimBlank, EdgesOf, Titles;
    TitlesReplaced(acc, k, s);
    assert s.title in seen;
  }

  lemma SettledAt(acc: seq<Sub>, k: nat)
    requires AllSettled(acc) && k < |acc|
    ensures Settled(acc[k])
  {}

  lemma TitlesReplaced(acc: seq<Sub>, k: nat, s: Sub)
    requires k < |acc| && s.title == acc[k].title
    ensures Titles(acc[k := s]) == Titles(acc)
  {
    var b := acc[k := s];
    forall t | t in acc ensures t.title in Titles(b) {
      var i :| 0 <= i < |acc| && acc[i] == t;
      assert b[i] in b && b[i].title == t.title;
    }
    forall t | t in b ensures t.title in Titles(acc) {
      var i :| 0 <= i < |b| && b[i] == t;
      assert acc[i] in acc && acc[i].title == t.title;
    }
  }

  lemma StepOpens(acc: seq<Sub>, s: Sub, seen: map<string, Edges>)
    requires SeenIs(acc, seen) && Visible(s.lines) && s.title !in seen
    ensures SeenIs(MergeSub(acc, s), seen[s.title := EdgesOf(s.lines)])
    ensures AllSettled(MergeSub(acc, s)) <==> AllSettled(acc)
  {
    hide TrimBlank, CompactLines, EdgesOf, Settled, AllSettled, UniqueTitles, Titles, SeenIs, MergeSub;
    var added := Sub(s.title, CompactLines(s.lines));
    MergeIsAppend(acc, s, seen);
    CompactEdges(s.lines);
    FreshIsSettled(s.title, s.lines);
    AllSettledAppended(acc, added);
    SeenAppended(acc, seen, added);
  }

  lemma MergeIsAppend(acc: seq<Sub>, s: Sub, seen: map<string, Edges>)
    requires SeenIs(acc, seen) && Visible(s.lines) && s.title !in seen
    ensures MergeSub(acc, s) == acc + [Sub(s.title, CompactLines(s.lines))]
  {
    hide TrimBlank, CompactLines, AppendLines, Find, Titles, UniqueTitles, EdgesOf;
    InTitles(acc, s.title);
    CompactKeepsStart(s.lines);
  }

  lemma SeenAppended(acc: seq<Sub>, seen: map<string, Edges>, s: Sub)
    requires SeenIs(acc, seen) && s.title !in seen && Visible(s.lines) && TrimBlank(s.lines) == s.lines
    ensures SeenIs(acc + [s], seen[s.title := EdgesOf(s.lines)])
  {
    hide TrimBlank, EdgesOf, Titles;
    TitlesAppended(acc, s);
    forall k | 0 <= k < |acc| ensures acc[k].title != s.title {
      assert acc[k].title in seen;
    }
  }

  lemma FreshIsSettled(title: string, ls: Lines)
    requires Visible(ls)
    ensures Settled(Sub(title, CompactLines(ls)))
  {
    hide TrimBlank, CompactLines;
    CompactSettles(ls);
    CompactKeepsStart(ls);
  }

  lemma TitlesAppended(acc: seq<Sub>, s: Sub)
    ensures Titles(acc + [s]) == Titles(acc) + {s.title}
  {
    assert forall t :: t in acc + [s] <==> t in acc || t == s;
  }

  /** The merged bodies of a section are all compact exactly when its bodies merge tight. */
  lemma {:induction false} SettledExactlyIfTight(acc: seq<Sub>, subs: seq<Sub>, seen: map<string, Edges>)
    requires SeenIs(acc, seen)
    ensures AllSettled(MergeSubs(acc, subs)) <==> AllSettled(acc) && MergesTight(seen, subs)
    decreases |subs|
  {
    hide MergeSub, AllSettled, SeenIs, JoinsTight, EdgesOf, Visible;
    if subs != [] {
      var s := subs[0];
      if !Visible(s.lines) {
        BlankMerges(acc, s);
        SettledExactlyIfTight(acc, subs[1..], seen);
      } else if s.title in seen {
        StepJoins(acc, s, seen);
        SettledExactlyIfTight(MergeSub(acc, s), subs[1..], seen[s.title := Edges(seen[s.title].opens, EdgesOf(s.lines).ends)]);
      } else {
        StepOpens(acc, s, seen);
        SettledExactlyIfTight(MergeSub(acc, s), subs[1..], seen[s.title := EdgesOf(s.lines)]);
      }
    }
  }

  lemma BlankMerges(acc: seq<Sub>, s: Sub)
    requires !Visible(s.lines)
    ensures MergeSub(acc, s) == acc
  {
    hide TrimBlank, CompactLines, AppendLines;
    CompactKeepsStart(s.lines);
  }

  /** Normalizing a section leaves every body compact exactly when its bodies merge tight. */
  lemma NormalizedSettles(s: Section)
    ensures AllSettled(NormalizeSection(s).subs) <==> MergesTight(map[], s.subs)
  {
    hide MergeSubs, AllSettled, MergesTight, TrimBlank, IsUnreleased;
    NothingSeen();
    SettledExactlyIfTight([], s.subs, map[]);
    var subs := MergeSubs([], s.subs);
    if AllSettled(subs) { SettledMembers(subs, SortBy(TitleOrder, subs)); }
    if AllSettled(SortBy(TitleOrder, subs)) { SettledMembers(SortBy(TitleOrder, subs), subs); }
  }

  lemma NothingSeen()
    ensures SeenIs([], map[]) && AllSettled([])
  {
    var none: map<string, Edges> := map[];
    assert none.Keys == Titles([]);
  }
}
