/** Parsing and printing a changelog (scripts/fix-changelogs.ts:144-208, 502-529), and how each
    undoes the other. */
module ChangelogDocument {
  import opened Lists
  import opened ChangelogText
  import Text

  datatype Sub = Sub(title: string, lines: Lines)

  datatype Section = Section(heading: string, leading: Lines, subs: seq<Sub>) {
    function Title(): string { ReleaseTitle(heading) }
  }

  datatype Doc = Doc(prefix: Lines, sections: seq<Section>)

  // ---------------------------------------------------------------- parsing

  function ParseSubs(ls: Lines): seq<Sub>
    requires ls == [] || IsSubsectionHeading(ls[0])
    decreases |ls|
  {
    if ls == [] then []
    else
      var k := Ahead(IsSubsectionHeading, ls[1..]);
      [Sub(SubsectionTitle(ls[0]), ls[1..][..k])] + ParseSubs(ls[1..][k..])
  }

  /** `parseReleaseSection` */
  function ParseSection(heading: string, body: Lines): Section {
    var k := Ahead(IsSubsectionHeading, body);
    Section(heading, body[..k], ParseSubs(body[k..]))
  }

  function ParseSections(ls: Lines): seq<Section>
    requires ls == [] || IsReleaseHeading(ls[0])
    decreases |ls|
  {
    if ls == [] then []
    else
      var k := Ahead(IsReleaseHeading, ls[1..]);
      [ParseSection(ls[0], ls[1..][..k])] + ParseSections(ls[1..][k..])
  }

  function ParseLines(ls: Lines): Doc {
    var k := Ahead(IsReleaseHeading, ls);
    Doc(ls[..k], ParseSections(ls[k..]))
  }

  /** `parseChangelog` */
  function Parse(content: string): Doc {
    ParseLines(SplitContentLines(content))
  }

  // --------------------------------------------------------------- printing

  function RenderSubs(subs: seq<Sub>): Lines {
    if subs == [] then []
    else
      var body := TrimBlank(subs[0].lines);
      (if body == [] then [] else ["", SubsectionHeading(subs[0].title), ""] + body) + RenderSubs(subs[1..])
  }

  function RenderBody(s: Section): Lines {
    var leading := TrimBlank(s.leading);
    (if leading == [] then [] else [""] + leading) + RenderSubs(s.subs)
  }

  function RenderSections(ss: seq<Section>): Lines {
    if ss == [] then []
    else if |ss| == 1 then [ss[0].heading] + RenderBody(ss[0])
    else [ss[0].heading] + (RenderBody(ss[0]) + [""]) + RenderSections(ss[1..])
  }

  function RenderLines(d: Doc): Lines {
    var prefix := TrimBlank(d.prefix);
    if prefix == [] || d.sections == [] then prefix + RenderSections(d.sections)
    else prefix + [""] + RenderSections(d.sections)
  }

  /** `renderChangelog` */
  function Render(d: Doc): string {
    Join(RenderLines(d)) + "\n"
  }

  // ------------------------------------------------------------ normal form

  predicate PrefixLine(line: string) {
    Clean(line) && !IsReleaseHeading(line)
  }

  predicate BodyLine(line: string) {
    PrefixLine(line) && !IsSubsectionHeading(line)
  }

  ghost predicate SubOk(s: Sub) {
    Clean(s.title) && s.title != [] && Text.Trim(s.title) == s.title && Every(BodyLine, s.lines)
  }

  ghost predicate SubsOk(subs: seq<Sub>) {
    forall i :: 0 <= i < |subs| ==> SubOk(subs[i])
  }

  ghost predicate SectionOk(s: Section) {
    IsReleaseHeading(s.heading) && Clean(s.heading) && Every(BodyLine, s.leading) && SubsOk(s.subs)
  }

  ghost predicate SectionsOk(ss: seq<Section>) {
    forall i :: 0 <= i < |ss| ==> SectionOk(ss[i])
  }

  /** A document that some text can stand for: no heading hides among its lines. */
  ghost predicate DocOk(d: Doc) {
    Every(PrefixLine, d.prefix) && SectionsOk(d.sections)
  }

  /** Edge blank lines and blank subsections removed: what printing keeps. */
  function TrimSubs(subs: seq<Sub>): seq<Sub> {
    if subs == [] then []
    else
      var body := TrimBlank(subs[0].lines);
      (if body == [] then [] else [Sub(subs[0].title, body)]) + TrimSubs(subs[1..])
  }

  function TrimSection(s: Section): Section {
    Section(s.heading, TrimBlank(s.leading), TrimSubs(s.subs))
  }

  function TrimSections(ss: seq<Section>): seq<Section> {
    if ss == [] then [] else [TrimSection(ss[0])] + TrimSections(ss[1..])
  }

  function TrimDoc(d: Doc): Doc {
    Doc(TrimBlank(d.prefix), TrimSections(d.sections))
  }

  // ----------------------------------------------- parsing gives valid documents

  lemma EverySlice<T>(p: T -> bool, s: seq<T>, k: nat)
    requires Every(p, s) && k <= |s|
    ensures Every(p, s[..k]) && Every(p, s[k..])
  {}

  lemma EveryPart<T>(p: T -> bool, s: seq<T>, k: nat)
    requires Every(p, s) && k < |s|
    ensures Every(p, s[1..][..k]) && Every(p, s[1..][k..])
  {}

  lemma AheadSplits(m: string -> bool, ls: Lines)
    ensures ls == ls[..Ahead(m, ls)] + ls[Ahead(m, ls)..] && Lacks(m, ls[..Ahead(m, ls)])
  {}

  lemma BodyLines(ls: Lines)
    requires Every(PrefixLine, ls) && Lacks(IsSubsectionHeading, ls)
    ensures Every(BodyLine, ls)
  {
    forall i | 0 <= i < |ls| ensures BodyLine(ls[i]) {}
  }

  lemma {:induction false} ParseSubsOk(ls: Lines)
    requires ls == [] || IsSubsectionHeading(ls[0])
    requires Every(PrefixLine, ls)
    ensures SubsOk(ParseSubs(ls))
    decreases |ls|
  {
    hide PrefixLine, IsSubsectionHeading, SubsectionTitle, Every, BodyLine, Lacks, SubOk;
    if ls != [] {
      var k := Ahead(IsSubsectionHeading, ls[1..]);
      EveryPart(PrefixLine, ls, k);
      AheadSplits(IsSubsectionHeading, ls[1..]);
      BodyLines(ls[1..][..k]);
      FirstSubOk(ls, ls[1..][..k]);
      ParseSubsOk(ls[1..][k..]);
    }
  }

  lemma FirstSubOk(ls: Lines, body: Lines)
    requires ls != [] && IsSubsectionHeading(ls[0]) && Every(PrefixLine, ls) && Every(BodyLine, body)
    ensures SubOk(Sub(SubsectionTitle(ls[0]), body))
  {
    hide PrefixLine, IsSubsectionHeading, SubsectionTitle, Every, BodyLine;
    EveryHead(PrefixLine, ls);
    PrefixIsClean(ls[0]);
    TitleShape(ls[0]);
  }

  lemma EveryHead<T>(p: T -> bool, s: seq<T>)
    requires Every(p, s) && s != []
    ensures p(s[0])
  {}

  lemma PrefixIsClean(line: string)
    requires PrefixLine(line)
    ensures Clean(line)
  {}

  lemma ParseSectionOk(heading: string, body: Lines)
    requires IsReleaseHeading(heading) && Clean(heading) && Every(PrefixLine, body)
    ensures SectionOk(ParseSection(heading, body))
  {
    hide PrefixLine, IsSubsectionHeading, IsReleaseHeading, Every, BodyLine, Lacks;
    var k := Ahead(IsSubsectionHeading, body);
    EverySlice(PrefixLine, body, k);
    AheadSplits(IsSubsectionHeading, body);
    BodyLines(body[..k]);
    ParseSubsOk(body[k..]);
  }

  lemma PrefixLines(ls: Lines)
    requires Every(Clean, ls) && Lacks(IsReleaseHeading, ls)
    ensures Every(PrefixLine, ls)
  {
    forall i | 0 <= i < |ls| ensures PrefixLine(ls[i]) {}
  }

  lemma {:induction false} ParseSectionsOk(ls: Lines)
    requires ls == [] || IsReleaseHeading(ls[0])
    requires Every(Clean, ls)
    ensures SectionsOk(ParseSections(ls))
    decreases |ls|
  {
    hide Clean, IsReleaseHeading, ParseSection, SectionOk, Every, Lacks;
    if ls != [] {
      var k := Ahead(IsReleaseHeading, ls[1..]);
      EveryPart(Clean, ls, k);
      AheadSplits(IsReleaseHeading, ls[1..]);
      PrefixLines(ls[1..][..k]);
      EveryHead(Clean, ls);
      ParseSectionOk(ls[0], ls[1..][..k]);
      ParseSectionsOk(ls[1..][k..]);
    }
  }

  /** Every text parses to a valid document. */
  lemma ParseOk(content: string)
    ensures DocOk(Parse(content))
  {
    hide Clean, IsReleaseHeading, PrefixLine, Every, Lacks;
    var ls := SplitContentLines(content);
    SplitIsClean(content);
    ParseLinesOk(ls);
  }

  lemma ParseLinesOk(ls: Lines)
    requires Every(Clean, ls)
    ensures DocOk(ParseLines(ls))
  {
    hide Clean, IsReleaseHeading, PrefixLine, Every, Lacks;
    var k := Ahead(IsReleaseHeading, ls);
    EverySlice(Clean, ls, k);
    AheadSplits(IsReleaseHeading, ls);
    PrefixLines(ls[..k]);
    ParseSectionsOk(ls[k..]);
  }

  // -------------------------------------------------- printing and reading back

  lemma ParseSubsStep(h: string, lines: Lines, rest: Lines)
    requires IsSubsectionHeading(h) && Lacks(IsSubsectionHeading, lines)
    requires rest == [] || IsSubsectionHeading(rest[0])
    ensures ParseSubs([h] + (lines + rest)) == [Sub(SubsectionTitle(h), lines)] + ParseSubs(rest)
  {
    hide IsSubsectionHeading, SubsectionTitle, Lacks;
    var ls := [h] + (lines + rest);
    assert ls[1..] == lines + rest;
    AheadIs(IsSubsectionHeading, lines, rest);
    assert (lines + rest)[..|lines|] == lines && (lines + rest)[|lines|..] == rest;
  }

  lemma BodyIsNoHeading(ls: Lines)
    requires Every(BodyLine, ls)
    ensures Lacks(IsSubsectionHeading, ls) && Lacks(IsReleaseHeading, ls) && Every(Clean, ls)
  {
    forall i | 0 <= i < |ls| ensures !IsSubsectionHeading(ls[i]) && !IsReleaseHeading(ls[i]) && Clean(ls[i]) {
      assert BodyLine(ls[i]);
    }
  }

  lemma TrimBlankBody(p: string -> bool, ls: Lines)
    requires Every(p, ls)
    ensures Every(p, TrimBlank(ls))
  {
    var a, b := TrimBounds(IsBlank, ls);
  }

  /** What a printed body becomes when it is read back after the lines `pre`: the lines before
      the first heading trim to what `pre` trims to, and the subsections to the printed ones. */
  ghost predicate ReadsBack(pre: Lines, subs: seq<Sub>, ls: Lines) {
    var k := Ahead(IsSubsectionHeading, ls);
    TrimBlank(ls[..k]) == TrimBlank(pre) && TrimSubs(ParseSubs(ls[k..])) == TrimSubs(subs)
  }

  lemma ReadsBackEmpty(pre: Lines, tail: Lines)
    requires Every(BodyLine, pre) && Every(BodyLine, tail) && Every(IsBlank, tail)
    ensures ReadsBack(pre, [], pre + tail)
  {
    hide BodyLine, IsSubsectionHeading, IsBlank;
    BodyIsNoHeading(pre);
    BodyIsNoHeading(tail);
    AheadIs(IsSubsectionHeading, pre + tail, []);
    assert pre + tail + [] == pre + tail;
    TrimAppend(IsBlank, pre, tail);
  }

  lemma BlankLines()
    ensures Every(IsBlank, [""]) && Every(BodyLine, [""])
  {
    EmptyIsBlank();
  }

  lemma {:induction false} SubsReadBack(pre: Lines, subs: seq<Sub>, tail: Lines)
    requires Every(BodyLine, pre) && SubsOk(subs) && Every(BodyLine, tail) && Every(IsBlank, tail)
    ensures ReadsBack(pre, subs, pre + RenderSubs(subs) + tail)
    decreases |subs|
  {
    hide BodyLine, IsBlank, Every, ReadsBack, SubOk, TrimBlank;
    if subs == [] {
      assert pre + [] + tail == pre + tail;
      ReadsBackEmpty(pre, tail);
    } else if TrimBlank(subs[0].lines) == [] {
      assert RenderSubs(subs) == RenderSubs(subs[1..]);
      SubsReadBack(pre, subs[1..], tail);
      ReadsBackSkip(pre, subs, pre + RenderSubs(subs) + tail);
    } else {
      var body := TrimBlank(subs[0].lines);
      SubLines(subs[0]);
      BlankLines();
      EveryJoin(BodyLine, [""], body);
      SubsReadBack([""] + body, subs[1..], tail);
      var rest := [""] + body + RenderSubs(subs[1..]) + tail;
      ReadsBackCons(pre, subs, body, rest);
      var h := SubsectionHeading(subs[0].title);
      assert ["", h, ""] + body == [""] + [h] + ([""] + body);
      RegroupSub(pre, h, [""] + body, RenderSubs(subs[1..]), tail);
    }
  }

  lemma RegroupSub(pre: Lines, h: string, body: Lines, rest: Lines, tail: Lines)
    ensures pre + ([""] + [h] + body + rest) + tail == (pre + [""]) + ([h] + (body + rest + tail))
  {}

  lemma EveryJoin<T>(p: T -> bool, a: seq<T>, b: seq<T>)
    requires Every(p, a) && Every(p, b)
    ensures Every(p, a + b)
  {}

  lemma SubLines(s: Sub)
    requires SubOk(s)
    ensures Every(BodyLine, TrimBlank(s.lines))
  {
    hide BodyLine, Every;
    TrimBlankBody(BodyLine, s.lines);
  }

  lemma ReadsBackSkip(pre: Lines, subs: seq<Sub>, ls: Lines)
    requires subs != [] && TrimBlank(subs[0].lines) == [] && ReadsBack(pre, subs[1..], ls)
    ensures ReadsBack(pre, subs, ls)
  {
    hide TrimBlank, IsSubsectionHeading;
    assert [] + TrimSubs(subs[1..]) == TrimSubs(subs[1..]);
  }

  lemma ReadsBackCons(pre: Lines, subs: seq<Sub>, body: Lines, rest: Lines)
    requires Every(BodyLine, pre) && SubsOk(subs) && subs != [] && body == TrimBlank(subs[0].lines) != []
    requires ReadsBack([""] + body, subs[1..], rest)
    ensures ReadsBack(pre, subs, (pre + [""]) + ([SubsectionHeading(subs[0].title)] + rest))
  {
    hide BodyLine, IsSubsectionHeading, SubOk, Every, TrimSubs, SubsectionHeading, ParseSubs, TrimBlank;
    var h := SubsectionHeading(subs[0].title);
    assert SubOk(subs[0]);
    HeadedBody(pre, h, rest, subs[0]);
    HeadedSubs(subs[0], subs[1..], body, rest);
    assert subs == [subs[0]] + subs[1..];
  }

  lemma HeadedBody(pre: Lines, h: string, rest: Lines, s: Sub)
    requires Every(BodyLine, pre) && SubOk(s) && h == SubsectionHeading(s.title)
    ensures IsSubsectionHeading(h)
    ensures var ls := (pre + [""]) + ([h] + rest); var k := Ahead(IsSubsectionHeading, ls);
      TrimBlank(ls[..k]) == TrimBlank(pre) && ls[k..] == [h] + rest
  {
    HeadingReadsBack(s.title);
    hide BodyLine, IsSubsectionHeading, IsReleaseHeading, IsBlank, Every, Lacks, SubsectionTitle, SubsectionHeading, TrimBy;
    BlankLines();
    EveryJoin(BodyLine, pre, [""]);
    BodyIsNoHeading(pre + [""]);
    AheadIs(IsSubsectionHeading, pre + [""], [h] + rest);
    TrimAppend(IsBlank, pre, [""]);
  }

  lemma HeadedSubs(s: Sub, others: seq<Sub>, body: Lines, rest: Lines)
    requires SubOk(s) && body == TrimBlank(s.lines) != [] && ReadsBack([""] + body, others, rest)
    requires IsSubsectionHeading(SubsectionHeading(s.title))
    ensures TrimSubs(ParseSubs([SubsectionHeading(s.title)] + rest)) == TrimSubs([s] + others)
  {
    hide BodyLine, IsSubsectionHeading, IsReleaseHeading, IsBlank, Every, Lacks, SubsectionTitle, SubsectionHeading, TrimBy, TrimSubs, ParseSubs;
    HeadingReadsBack(s.title);
    var h := SubsectionHeading(s.title);
    var k := Ahead(IsSubsectionHeading, rest);
    AheadSplits(IsSubsectionHeading, rest);
    ParseSubsStep(h, rest[..k], rest[k..]);
    BlankLines();
    NothingIsBlank();
    TrimCore(IsBlank, [""], body, []);
    assert [""] + body + [] == [""] + body;
    TrimBlankTwice(s.lines);
    TrimSubsStep(Sub(s.title, rest[..k]), ParseSubs(rest[k..]), body);
    TrimSubsStep(s, others, body);
  }

  lemma NothingIsBlank()
    ensures Every(IsBlank, [])
  {}

  lemma TrimSubsStep(s: Sub, rest: seq<Sub>, body: Lines)
    requires TrimBlank(s.lines) == body != []
    ensures TrimSubs([s] + rest) == [Sub(s.title, body)] + TrimSubs(rest)
  {
    assert ([s] + rest)[1..] == rest;
  }

  lemma SectionReadsBack(s: Section, tail: Lines)
    requires SectionOk(s) && Every(BodyLine, tail) && Every(IsBlank, tail)
    ensures TrimSection(ParseSection(s.heading, RenderBody(s) + tail)) == TrimSection(s)
  {
    hide BodyLine, IsBlank, Every, IsSubsectionHeading, IsReleaseHeading, SubsOk, RenderSubs, TrimBy;
    var leading := TrimBlank(s.leading);
    TrimBlankBody(BodyLine, s.leading);
    TrimIsTrimmed(IsBlank, s.leading);
    TrimFixed(IsBlank, leading);
    BlankLines();
    NothingIsBlank();
    var pre := if leading == [] then [] else [""] + leading;
    EveryJoin(BodyLine, [""], leading);
    TrimCore(IsBlank, [""], leading, []);
    assert [""] + leading + [] == [""] + leading;
    SubsReadBack(pre, s.subs, tail);
  }

  lemma ParseSectionsStep(h: string, body: Lines, rest: Lines)
    requires IsReleaseHeading(h) && Lacks(IsReleaseHeading, body)
    requires rest == [] || IsReleaseHeading(rest[0])
    ensures ParseSections([h] + body + rest) == [ParseSection(h, body)] + ParseSections(rest)
  {
    hide IsReleaseHeading, ParseSection, Lacks;
    var ls := [h] + body + rest;
    assert ls[1..] == body + rest;
    AheadIs(IsReleaseHeading, body, rest);
    assert (body + rest)[..|body|] == body && (body + rest)[|body|..] == rest;
  }

  // No release heading hides in what is printed below one, and all of it is clean.

  lemma {:induction false} RenderSubsLines(subs: seq<Sub>)
    requires SubsOk(subs)
    ensures Every(PrefixLine, RenderSubs(subs))
  {
    hide BodyLine, PrefixLine, Every, SubOk;
    if subs != [] {
      RenderSubsLines(subs[1..]);
      var body := TrimBlank(subs[0].lines);
      SubLines(subs[0]);
      BodyArePrefixLines(body);
      RenderedHeading(subs[0]);
      var h := ["", SubsectionHeading(subs[0].title), ""];
      EveryJoin(PrefixLine, h, body);
      EveryJoin(PrefixLine, h + body, RenderSubs(subs[1..]));
      assert [] + RenderSubs(subs[1..]) == RenderSubs(subs[1..]);
    } else {
      NothingIsPrefix();
    }
  }

  lemma NothingIsPrefix()
    ensures Every(PrefixLine, []) && Every(PrefixLine, [""])
  {}

  lemma RenderedHeading(s: Sub)
    requires SubOk(s)
    ensures Every(PrefixLine, ["", SubsectionHeading(s.title), ""])
  {
    hide SubsectionHeading, IsReleaseHeading, Clean;
    HeadingReadsBack(s.title);
    CleanHeading(s.title);
    EmptyIsBlank();
    Enclosed(PrefixLine, "", SubsectionHeading(s.title), "");
  }

  lemma Enclosed<T>(p: T -> bool, a: T, b: T, c: T)
    requires p(a) && p(b) && p(c)
    ensures Every(p, [a, b, c])
  {}

  lemma CleanHeading(title: string)
    requires Clean(title)
    ensures Clean(SubsectionHeading(title))
  {
    assert Clean("### ");
  }

  lemma BodyArePrefixLines(ls: Lines)
    requires Every(BodyLine, ls)
    ensures Every(PrefixLine, ls)
  {
    forall i | 0 <= i < |ls| ensures PrefixLine(ls[i]) {
      assert BodyLine(ls[i]);
    }
  }

  lemma RenderBodyLines(s: Section)
    requires SectionOk(s)
    ensures Every(PrefixLine, RenderBody(s))
  {
    hide BodyLine, PrefixLine, Every, SubsOk, IsReleaseHeading;
    RenderSubsLines(s.subs);
    TrimBlankBody(BodyLine, s.leading);
    BodyArePrefixLines(TrimBlank(s.leading));
    NothingIsPrefix();
    EveryJoin(PrefixLine, [""], TrimBlank(s.leading));
    EveryJoin(PrefixLine, [""] + TrimBlank(s.leading), RenderSubs(s.subs));
    assert [] + RenderSubs(s.subs) == RenderSubs(s.subs);
  }

  lemma PrefixIsNoRelease(ls: Lines)
    requires Every(PrefixLine, ls)
    ensures Lacks(IsReleaseHeading, ls) && Every(Clean, ls)
  {
    forall i | 0 <= i < |ls| ensures !IsReleaseHeading(ls[i]) && Clean(ls[i]) {
      assert PrefixLine(ls[i]);
    }
  }

  lemma {:induction false} SectionsReadBack(ss: seq<Section>)
    requires SectionsOk(ss)
    ensures RenderSections(ss) == [] || IsReleaseHeading(RenderSections(ss)[0])
    ensures TrimSections(ParseSections(RenderSections(ss))) == TrimSections(ss)
    ensures Every(Clean, RenderSections(ss)) && (RenderSections(ss) == [] <==> ss == [])
  {
    hide BodyLine, PrefixLine, Every, SubsOk, IsReleaseHeading, IsBlank, RenderBody, ParseSection, TrimSection, Clean;
    if ss == [] {
      NothingIsClean();
    } else {
      var s := ss[0];
      RenderBodyLines(s);
      BlankLines();
      NothingIsPrefix();
      NothingIsBlank();
      NothingIsBody();
      var tail := if |ss| == 1 then [] else [""];
      assert RenderBody(s) + [] == RenderBody(s);
      var body := RenderBody(s) + tail;
      EveryJoin(PrefixLine, RenderBody(s), tail);
      PrefixIsNoRelease(body);
      SectionReadsBack(s, tail);
      SectionsReadBack(ss[1..]);
      var rest := RenderSections(ss[1..]);
      ParseSectionsStep(s.heading, body, rest);
      assert RenderSections(ss) == [s.heading] + body + rest;
      CleanHead(s);
      EveryJoin(Clean, [s.heading], body);
      EveryJoin(Clean, [s.heading] + body, rest);
      var p := ParseSection(s.heading, body);
      assert ([p] + ParseSections(rest))[1..] == ParseSections(rest);
    }
  }

  lemma NothingIsClean()
    ensures Every(Clean, [])
  {}

  lemma NothingIsBody()
    ensures Every(BodyLine, [])
  {}

  lemma CleanHead(s: Section)
    requires SectionOk(s)
    ensures Every(Clean, [s.heading])
  {}

  lemma {:induction false} TrimSubsTwice(subs: seq<Sub>)
    ensures TrimSubs(TrimSubs(subs)) == TrimSubs(subs) && RenderSubs(TrimSubs(subs)) == RenderSubs(subs)
  {
    hide TrimBlank, SubsectionHeading;
    if subs != [] {
      var body, t, r := TrimBlank(subs[0].lines), TrimSubs(subs[1..]), RenderSubs(subs[1..]);
      TrimSubsTwice(subs[1..]);
      if body == [] {
        assert [] + t == t && [] + r == r;
      } else {
        TrimBlankTwice(subs[0].lines);
        var s := Sub(subs[0].title, body);
        TrimSubsStep(s, t, body);
        assert ([s] + t)[1..] == t;
      }
    }
  }

  lemma TrimBlankTwice(ls: Lines)
    ensures TrimBlank(TrimBlank(ls)) == TrimBlank(ls)
  {
    TrimIsTrimmed(IsBlank, ls);
    TrimFixed(IsBlank, TrimBlank(ls));
  }

  lemma {:induction false} RenderTrimmedSections(ss: seq<Section>)
    ensures RenderSections(TrimSections(ss)) == RenderSections(ss) && |TrimSections(ss)| == |ss|
  {
    hide IsBlank, TrimBy;
    if ss != [] {
      RenderTrimmedSections(ss[1..]);
      TrimSubsTwice(ss[0].subs);
      TrimBlankTwice(ss[0].leading);
      assert RenderBody(TrimSection(ss[0])) == RenderBody(ss[0]);
      assert TrimSections(ss)[1..] == TrimSections(ss[1..]);
    }
  }

  /** Printing sees a document only up to edge blank lines. */
  lemma RenderTrimmed(d: Doc)
    ensures Render(TrimDoc(d)) == Render(d)
  {
    hide IsBlank, TrimBy;
    RenderTrimmedSections(d.sections);
    TrimBlankTwice(d.prefix);
  }

  lemma LinesReadBack(d: Doc)
    requires DocOk(d)
    ensures TrimDoc(ParseLines(RenderLines(d))) == TrimDoc(d) && Every(Clean, RenderLines(d))
  {
    hide IsBlank, IsReleaseHeading, PrefixLine, SectionsOk, RenderSections, ParseSections, Every, Clean;
    var prefix := TrimBlank(d.prefix);
    var rest := RenderSections(d.sections);
    SectionsReadBack(d.sections);
    TrimBlankBody(PrefixLine, d.prefix);
    TrimIsTrimmed(IsBlank, d.prefix);
    TrimFixed(IsBlank, prefix);
    NothingIsPrefix();
    NothingIsBlank();
    BlankLines();
    var tail := if prefix == [] || d.sections == [] then [] else [""];
    EveryJoin(PrefixLine, prefix, tail);
    PrefixIsNoRelease(prefix + tail);
    TrimAppend(IsBlank, prefix, tail);
    assert prefix + [] == prefix;
    var ls := prefix + tail + rest;
    AheadIs(IsReleaseHeading, prefix + tail, rest);
    assert ls[..|prefix + tail|] == prefix + tail && ls[|prefix + tail|..] == rest;
    EveryJoin(Clean, prefix + tail, rest);
  }

  /** Reading a printed document gives the document back up to edge blank lines. */
  lemma ParseAfterRender(d: Doc)
    requires DocOk(d)
    ensures TrimDoc(Parse(Render(d))) == TrimDoc(d)
  {
    LinesReadBack(d);
    ContentReadsBack(RenderLines(d));
    if RenderLines(d) == [] {
      EmptyTextReadsBack();
      assert TrimDoc(ParseLines([])) == TrimDoc(ParseLines([""]));
    }
  }

  lemma EmptyTextReadsBack()
    ensures TrimDoc(ParseLines([""])) == Doc([], []) == TrimDoc(ParseLines([]))
  {
    EmptyIsBlank();
    AheadIs(IsReleaseHeading, [""], []);
    assert [""] + [] == [""];
    TrimEmpty(IsBlank, [""]);
    TrimEmpty(IsBlank, []);
  }

  /** Printing what was read settles a text at once: a second pass changes nothing. */
  lemma RenderAfterParseSettles(content: string)
    ensures Render(Parse(Render(Parse(content)))) == Render(Parse(content))
  {
    var d := Parse(content);
    ParseOk(content);
    ParseAfterRender(d);
    RenderTrimmed(d);
    RenderTrimmed(Parse(Render(d)));
  }
}
