/** The lines of a changelog and its text (scripts/fix-changelogs.ts:100-142, 202-208, 523-528). */
module ChangelogText {
  import opened Lists
  import opened Items
  import Text

  type Lines = seq<string>

  /** The length of the part of `s` before the first `c`. */
  function UpTo(c: char, s: string): (k: nat)
    ensures k <= |s| && c !in s[..k] && (k < |s| ==> s[k] == c)
  {
    if s == [] || s[0] == c then 0 else 1 + UpTo(c, s[1..])
  }

  lemma {:induction false} UpToIs(c: char, pre: string, rest: string)
    requires c !in pre && (rest == [] || rest[0] == c)
    ensures UpTo(c, pre + rest) == |pre|
  {
    if pre == [] {
      assert pre + rest == rest;
    } else {
      assert (pre + rest)[1..] == pre[1..] + rest;
      UpToIs(c, pre[1..], rest);
    }
  }

  // ------------------------------------------------------------------ lines

  /** `/^## \[[^\]]+\]/` */
  predicate IsReleaseHeading(line: string) {
    "## [" <= line && 0 < UpTo(']', line[4..]) < |line[4..]|
  }

  function ReleaseTitle(heading: string): string {
    if IsReleaseHeading(heading) then heading[4..][..UpTo(']', heading[4..])]
    else if "##" <= heading && |heading| > 2 && Text.IsSpace(heading[2]) then Text.Trim(heading[2..])
    else Text.Trim(heading)
  }

  /** `/^###\s+\S/` */
  predicate IsSubsectionHeading(line: string) {
    "###" <= line && |line| > 3 && Text.IsSpace(line[3]) && Text.TrimStart(line[3..]) != []
  }

  function SubsectionTitle(heading: string): string {
    if "###" <= heading && |heading| > 3 && Text.IsSpace(heading[3]) then Text.Trim(heading[3..])
    else Text.Trim(heading)
  }

  function SubsectionHeading(title: string): string {
    "### " + title
  }

  predicate IsBullet(line: string) {
    "- " <= Text.TrimStart(line)
  }

  predicate IsBlank(line: string) {
    Text.Trim(line) == []
  }

  function TrimBlank(ls: Lines): Lines {
    TrimBy(IsBlank, ls)
  }

  /** No line break inside the line. */
  predicate Clean(line: string) {
    '\n' !in line && '\r' !in line
  }

  const UNRELEASED := "Unreleased"
  const UNRELEASED_HEADING := "## [" + UNRELEASED + "]"

  lemma HeadingTitle(title: string)
    requires ']' !in title && title != []
    ensures IsReleaseHeading("## [" + title + "]") && ReleaseTitle("## [" + title + "]") == title
  {
    var h := "## [" + title + "]";
    assert h == "## [" + (title + "]");
    assert h[4..] == title + "]";
    UpToIs(']', title, "]");
    assert (title + "]")[..|title|] == title;
  }

  lemma UnreleasedHeading()
    ensures IsReleaseHeading(UNRELEASED_HEADING) && ReleaseTitle(UNRELEASED_HEADING) == UNRELEASED && Clean(UNRELEASED_HEADING)
  {
    hide IsReleaseHeading, ReleaseTitle;
    HeadingTitle(UNRELEASED);
  }

  lemma BulletVisible(line: string)
    requires IsBullet(line)
    ensures !IsBlank(line)
  {
    var t := Text.TrimStart(line);
    assert t[0] == '-';
    Text.TrimEndKeepsHead(t);
  }

  lemma BulletsApart()
    ensures Apart(IsBullet, IsBlank)
  {
    forall line | IsBullet(line) ensures !IsBlank(line) {
      BulletVisible(line);
    }
  }

  lemma EmptyIsBlank()
    ensures IsBlank("") && !IsBullet("") && !IsReleaseHeading("") && !IsSubsectionHeading("") && Clean("")
  {}

  /** What is printed for a title reads back as that title. */
  lemma HeadingReadsBack(title: string)
    requires title != [] && Text.Trim(title) == title
    ensures IsSubsectionHeading(SubsectionHeading(title)) && SubsectionTitle(SubsectionHeading(title)) == title
    ensures !IsReleaseHeading(SubsectionHeading(title))
  {
    var h := SubsectionHeading(title);
    assert h[3..] == " " + title;
    assert (" " + title)[1..] == title;
    assert !Text.IsSpace(title[0]) by { Text.TrimIsTrimmed(title); }
    assert Text.TrimStart(" " + title) == title;
    assert h[2] == '#';
  }

  lemma TitleShape(line: string)
    requires IsSubsectionHeading(line) && Clean(line)
    ensures SubsectionTitle(line) != [] && Text.Trim(SubsectionTitle(line)) == SubsectionTitle(line)
    ensures Clean(SubsectionTitle(line))
  {
    Text.TrimStartIs(line[3..]);
    var t := Text.TrimStart(line[3..]);
    Text.TrimIsTrimmed(line[3..]);
    Text.TrimEndKeepsHead(t);
    assert Text.Trim(line[3..]) != [];
    TrimKeepsOut('\n', line[3..]);
    TrimKeepsOut('\r', line[3..]);
  }

  lemma TrimKeepsOut(c: char, s: string)
    requires c !in s
    ensures c !in Text.Trim(s)
  {
    Text.TrimStartIs(s);
    Text.TrimEndIs(Text.TrimStart(s));
    var t := Text.TrimStart(s);
    assert c !in t;
  }

  // ------------------------------------------------------------------- text

  /** `replace(/\r\n/g, "\n").replace(/\r/g, "\n")` */
  function Newlines(s: string): (r: string)
    ensures '\r' !in r
  {
    if s == [] then []
    else if s[0] == '\r' then ['\n'] + Newlines(s[if |s| > 1 && s[1] == '\n' then 2 else 1..])
    else [s[0]] + Newlines(s[1..])
  }

  /** `split` at one character */
  function SplitAt(c: char, s: string): (ls: Lines)
    ensures ls != [] && forall i :: 0 <= i < |ls| ==> c !in ls[i]
    decreases |s|
  {
    var k := UpTo(c, s);
    if k == |s| then [s] else [s[..k]] + SplitAt(c, s[k + 1..])
  }

  function Split(s: string): (ls: Lines)
    ensures ls != [] && forall i :: 0 <= i < |ls| ==> '\n' !in ls[i]
  {
    SplitAt('\n', s)
  }

  /** `splitContentLines` */
  function SplitContentLines(content: string): Lines {
    var s := Newlines(content);
    if s != [] && s[|s| - 1] == '\n' then Split(s[..|s| - 1]) else Split(s)
  }

  /** `lines.join("\n")` */
  function Join(ls: Lines): string {
    if ls == [] then [] else if |ls| == 1 then ls[0] else ls[0] + "\n" + Join(ls[1..])
  }

  lemma {:induction false} NewlinesFixed(s: string)
    requires '\r' !in s
    ensures Newlines(s) == s
  {
    if s != [] {
      NewlinesFixed(s[1..]);
    }
  }

  lemma {:induction false} SplitJoin(ls: Lines)
    requires ls != [] && forall i :: 0 <= i < |ls| ==> '\n' !in ls[i]
    ensures Split(Join(ls)) == ls
  {
    if |ls| == 1 {
      UpToIs('\n', ls[0], []);
      assert ls[0] + [] == ls[0];
    } else {
      SplitJoin(ls[1..]);
      SplitStep(ls[0], Join(ls[1..]));
      assert ls == [ls[0]] + ls[1..];
    }
  }

  lemma SplitStep(line: string, rest: string)
    requires '\n' !in line
    ensures Split(line + "\n" + rest) == [line] + Split(rest)
  {
    var s := line + "\n" + rest;
    assert s == line + ("\n" + rest);
    UpToIs('\n', line, "\n" + rest);
    assert s[..|line|] == line && s[|line| + 1..] == rest;
  }

  lemma {:induction false} JoinHasNoReturn(ls: Lines)
    requires Every(Clean, ls)
    ensures '\r' !in Join(ls)
  {
    if |ls| > 1 {
      JoinHasNoReturn(ls[1..]);
    }
  }

  lemma SplitIsClean(content: string)
    ensures SplitContentLines(content) != [] && Every(Clean, SplitContentLines(content))
  {
    SplitKeepsOut('\r', Newlines(content));
    var s := Newlines(content);
    if s != [] {
      SplitKeepsOut('\r', s[..|s| - 1]);
    }
  }

  lemma {:induction false} SplitKeepsOut(c: char, s: string)
    requires c !in s
    ensures forall i :: 0 <= i < |SplitAt('\n', s)| ==> c !in SplitAt('\n', s)[i]
    decreases |s|
  {
    var k := UpTo('\n', s);
    if k < |s| {
      SplitKeepsOut(c, s[k + 1..]);
    }
  }

  /** The text of some lines splits into those lines; an empty document is one empty line. */
  lemma ContentReadsBack(ls: Lines)
    requires Every(Clean, ls)
    ensures SplitContentLines(Join(ls) + "\n") == if ls == [] then [""] else ls
  {
    var s := Join(ls) + "\n";
    JoinHasNoReturn(ls);
    NewlinesFixed(s);
    assert s[..|s| - 1] == Join(ls);
    if ls != [] {
      SplitJoin(ls);
    }
  }
}
