/** What the fixer's line patterns recognize (scripts/fix-changelogs.ts:100-135). */
module ChangelogForms {
  import opened ChangelogText
  import Text

  /** A line is blank exactly if it is all white space. */
  lemma BlankExactly(line: string)
    ensures IsBlank(line) <==> Text.AllSpace(line)
  {
    Text.TrimEmpty(line);
  }

  /** A bullet: indentation, a dash, a space. */
  lemma BulletExactly(line: string)
    ensures IsBullet(line) <==> exists pre, rest :: Text.AllSpace(pre) && line == pre + ("- " + rest)
  {
    hide Text.IsSpace, Text.TrimStart;
    if IsBullet(line) {
      Text.TrimStartIs(line);
      var t := Text.TrimStart(line);
      assert line == line[..|line| - |t|] + ("- " + t[2..]);
    }
    if pre, rest :| Text.AllSpace(pre) && line == pre + ("- " + rest) {
      DashVisible(rest);
      Text.TrimStartSkips(pre, "- " + rest);
    }
  }

  lemma DashVisible(rest: string)
    ensures !Text.IsSpace(("- " + rest)[0])
  {}

  /** A release heading with this title: two hashes, then the title in brackets, then anything. */
  ghost predicate Titled(line: string, title: string) {
    title != [] && ']' !in title && exists rest :: line == "## [" + (title + ("]" + rest))
  }

  lemma ReleaseHeadingExactly(line: string, title: string)
    ensures IsReleaseHeading(line) && ReleaseTitle(line) == title <==> Titled(line, title)
  {
    hide IsReleaseHeading, ReleaseTitle;
    if IsReleaseHeading(line) && ReleaseTitle(line) == title {
      HeadingParts(line);
    }
    if Titled(line, title) {
      var rest :| line == "## [" + (title + ("]" + rest));
      TitledHeading(line, title, rest);
    }
  }

  lemma HeadingParts(line: string)
    requires IsReleaseHeading(line)
    ensures Titled(line, ReleaseTitle(line))
  {
    hide UpTo;
    var s := line[4..];
    var k := UpTo(']', s);
    assert line == "## [" + s && s == s[..k] + ("]" + s[k + 1..]);
  }

  lemma TitledHeading(line: string, title: string, rest: string)
    requires title != [] && ']' !in title && line == "## [" + (title + ("]" + rest))
    ensures IsReleaseHeading(line) && ReleaseTitle(line) == title
  {
    hide UpTo;
    assert line[4..] == title + ("]" + rest);
    UpToIs(']', title, "]" + rest);
    assert line[4..][..|title|] == title;
  }

  /** A subsection heading with this title: three hashes, white space, the title, white space. */
  ghost predicate Subtitled(line: string, title: string) {
    && title != [] && !Text.IsSpace(title[0]) && !Text.IsSpace(title[|title| - 1])
    && exists gap, blanks :: gap != [] && Text.AllSpace(gap) && Text.AllSpace(blanks) && line == "###" + (gap + (title + blanks))
  }

  lemma EndIs(s: string, blanks: string)
    requires Text.AllSpace(blanks) && s != [] && !Text.IsSpace(s[|s| - 1])
    ensures Text.TrimEnd(s + blanks) == s
  {
    hide Text.IsSpace;
    Text.TrimEndSkips(s, blanks);
  }

  lemma SubtitleIs(gap: string, title: string, blanks: string)
    requires gap != [] && Text.AllSpace(gap) && Text.AllSpace(blanks)
    requires title != [] && !Text.IsSpace(title[0]) && !Text.IsSpace(title[|title| - 1])
    ensures Text.TrimStart(gap + (title + blanks)) == title + blanks && Text.Trim(gap + (title + blanks)) == title
  {
    hide Text.IsSpace, Text.TrimStart, Text.TrimEnd;
    assert (title + blanks)[0] == title[0];
    Text.TrimStartSkips(gap, title + blanks);
    EndIs(title, blanks);
  }

  lemma SubtitleParts(s: string) returns (gap: string, blanks: string)
    requires s != [] && Text.IsSpace(s[0]) && Text.TrimStart(s) != []
    ensures gap != [] && Text.AllSpace(gap) && Text.AllSpace(blanks) && s == gap + (Text.Trim(s) + blanks)
    ensures var t := Text.Trim(s); t != [] && !Text.IsSpace(t[0]) && !Text.IsSpace(t[|t| - 1])
  {
    hide Text.IsSpace, Text.TrimStart, Text.TrimEnd;
    Text.TrimStartIs(s);
    var t := Text.TrimStart(s);
    Text.TrimEndIs(t);
    Text.TrimEndKeepsHead(t);
    gap, blanks := s[..|s| - |t|], t[|Text.TrimEnd(t)|..];
    assert s == gap + t && t == Text.Trim(s) + blanks;
    assert gap == [] ==> t == s;
  }

  lemma SubsectionHeadingExactly(line: string, title: string)
    ensures IsSubsectionHeading(line) && SubsectionTitle(line) == title <==> Subtitled(line, title)
  {
    hide Text.IsSpace, Text.TrimStart, Text.Trim;
    if IsSubsectionHeading(line) && SubsectionTitle(line) == title {
      assert line == "###" + line[3..];
      var gap, blanks := SubtitleParts(line[3..]);
    }
    if Subtitled(line, title) {
      var gap, blanks :| gap != [] && Text.AllSpace(gap) && Text.AllSpace(blanks) && line == "###" + (gap + (title + blanks));
      assert line[3..] == gap + (title + blanks);
      SubtitleIs(gap, title, blanks);
      assert line[3] == gap[0];
    }
  }
}
