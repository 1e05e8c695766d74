/** Reading a unified diff into its added and removed bullets (scripts/fix-changelogs.ts:582-654). */
module DiffReader {
  import opened Basics
  import opened Lists
  import opened ChangelogText
  import opened ChangelogFix
  import opened DiffPromotion

  // ------------------------------------------------------------ hunk headers

  function After(prefix: string, s: string): Option<string> {
    if prefix <= s then Some(s[|prefix|..]) else None
  }

  /** `(\d+)(?:,\d+)?` at the front of `s`: the number, and what follows. */
  function TakeRange(s: string): Option<(int, string)> {
    var k := DigitsAhead(s);
    if k == 0 then None
    else
      var rest := s[k..];
      if rest != [] && rest[0] == ',' && DigitsAhead(rest[1..]) > 0 then Some((Value(s[..k]), rest[1..][DigitsAhead(rest[1..])..]))
      else Some((Value(s[..k]), rest))
  }

  /** `/^@@ -(\d+)(?:,\d+)? \+(\d+)(?:,\d+)? @@/`: where the hunk starts in the new file. */
  function HunkStart(raw: string): Option<int> {
    var a := After("@@ -", raw);
    if a.None? then None
    else
      var before := TakeRange(a.value);
      if before.None? then None
      else
        var b := After(" +", before.value.1);
        if b.None? then None
        else
          var after := TakeRange(b.value);
          if after.None? || After(" @@", after.value.1).None? then None else Some(after.value.0)
  }

  // ----------------------------------------------------------------- reading

  datatype Reader = Reader(path: string, newLine: int, hunkIndex: int, cs: seq<Candidate>, rs: seq<Removal>, headings: set<HunkRef>) {
    function Here(): HunkRef { HunkRef(path, hunkIndex) }
  }

  const START := Reader("", 0, -1, [], [], {})

  /** One line inside a hunk. */
  function ReadBody(s: Reader, raw: string): Reader
    requires raw != []
  {
    var text := raw[1..];
    if raw[0] == '+' then
      s.(newLine := s.newLine + 1,
         cs := if IsBullet(text) then s.cs + [Candidate(s.newLine, text, s.Here())] else s.cs,
         headings := if "+## [" <= raw then s.headings + {s.Here()} else s.headings)
    else if raw[0] == '-' then s.(rs := if IsBullet(text) then s.rs + [Removal(text, s.Here())] else s.rs)
    else if raw[0] == ' ' then s.(newLine := s.newLine + 1)
    else s
  }

  function ReadLine(s: Reader, raw: string): Reader {
    if "+++ b/" <= raw then s.(path := raw[6..])
    else if "diff --git " <= raw then s.(path := "", hunkIndex := -1)
    else if HunkStart(raw).Some? then s.(newLine := HunkStart(raw).value, hunkIndex := s.hunkIndex + 1)
    else if s.path == "" || s.hunkIndex < 0 || raw == [] then s
    else ReadBody(s, raw)
  }

  function ReadAll(s: Reader, ls: Lines): Reader
    decreases |ls|
  {
    if ls == [] then s else ReadAll(ReadLine(s, ls[0]), ls[1..])
  }

  lemma {:induction false} ReadAppend(s: Reader, a: Lines, b: Lines)
    ensures ReadAll(s, a + b) == ReadAll(ReadAll(s, a), b)
    decreases |a|
  {
    hide ReadLine;
    if a == [] {
      assert a + b == b;
    } else {
      assert (a + b)[1..] == a[1..] + b;
      ReadAppend(ReadLine(s, a[0]), a[1..], b);
    }
  }

  lemma ReadOne(s: Reader, raw: string)
    ensures ReadAll(s, [raw]) == ReadLine(s, raw)
  {
    hide ReadLine;
    assert [raw][1..] == [];
  }

  // ------------------------------------------------------- diffs as git writes

  datatype Hunk = Hunk(header: string, body: Lines)

  /** A deleted file has no new path. */
  datatype FileDiff = FileDiff(head: string, extra: Lines, path: Option<string>, hunks: seq<Hunk>)

  /** Nothing the reader takes for a header of any kind. */
  predicate Inert(raw: string) {
    !("+++ b/" <= raw) && !("diff --git " <= raw) && HunkStart(raw).None?
  }

  /** A line of a hunk: added, removed, kept, or a remark. An added line whose own text starts
      with `++ b/` would read as a file header. */
  predicate HunkLine(raw: string) {
    raw == [] || raw[0] in " -\\" || (raw[0] == '+' && !("+++ b/" <= raw))
  }

  lemma HunkLineIsInert(raw: string)
    requires HunkLine(raw)
    ensures Inert(raw)
  {
    if raw != [] {
      assert raw[0] != '@' && raw[0] != 'd';
    }
  }

  /** The texts a hunk leaves in the new file, in order. */
  function NewTexts(body: Lines): Lines {
    if body == [] then []
    else (if body[0] != [] && body[0][0] in " +" then [body[0][1..]] else []) + NewTexts(body[1..])
  }

  ghost predicate HunkOk(h: Hunk) {
    HunkStart(h.header).Some? && !("+++ b/" <= h.header) && !("diff --git " <= h.header) && Every(HunkLine, h.body)
  }

  ghost predicate FileOk(f: FileDiff) {
    "diff --git " <= f.head && !("+++ b/" <= f.head) && Every(Inert, f.extra) && (f.path.Some? ==> f.path.value != "")
    && forall i :: 0 <= i < |f.hunks| ==> HunkOk(f.hunks[i])
  }

  function HunksLines(hs: seq<Hunk>): Lines {
    if hs == [] then [] else [hs[0].header] + hs[0].body + HunksLines(hs[1..])
  }

  function NameLine(f: FileDiff): string {
    if f.path.Some? then "+++ b/" + f.path.value else "+++ /dev/null"
  }

  function FileLines(f: FileDiff): Lines {
    [f.head] + f.extra + [NameLine(f)] + HunksLines(f.hunks)
  }

  function DiffLines(fs: seq<FileDiff>): Lines {
    if fs == [] then [] else FileLines(fs[0]) + DiffLines(fs[1..])
  }

  /** The hunk's texts stand where its header says in the new version of the file. */
  ghost predicate HunkAgrees(h: Hunk, newFile: Lines)
    requires HunkOk(h)
  {
    forall k :: 0 <= k < |NewTexts(h.body)| ==> At(newFile, HunkStart(h.header).value - 1 + k, NewTexts(h.body)[k])
  }

  ghost predicate FileAgrees(f: FileDiff, files: map<string, Lines>)
    requires FileOk(f)
  {
    f.path.Some? ==>
      f.path.value in files && forall i :: 0 <= i < |f.hunks| ==> HunkAgrees(f.hunks[i], files[f.path.value])
  }

  ghost predicate DiffAgrees(fs: seq<FileDiff>, files: map<string, Lines>) {
    forall i :: 0 <= i < |fs| ==> FileOk(fs[i]) && FileAgrees(fs[i], files)
  }

  // ---------------------------------------------- what such a diff reads as

  /** The added bullets of a hunk whose next line of the new file is `line`. */
  function HunkAdded(h: HunkRef, line: int, body: Lines): seq<Candidate>
    decreases |body|
  {
    if body == [] then []
    else AddedBy(h, line, body[0]) + HunkAdded(h, NextLine(line, body[0]), body[1..])
  }

  function HunksAdded(path: string, hs: seq<Hunk>, index: int): seq<Candidate> {
    if hs == [] then []
    else
      (if HunkStart(hs[0].header).Some? then HunkAdded(HunkRef(path, index), HunkStart(hs[0].header).value, hs[0].body) else [])
      + HunksAdded(path, hs[1..], index + 1)
  }

  function FileAdded(f: FileDiff): seq<Candidate> {
    if f.path.Some? then HunksAdded(f.path.value, f.hunks, 0) else []
  }

  function DiffAdded(fs: seq<FileDiff>): seq<Candidate> {
    if fs == [] then [] else FileAdded(fs[0]) + DiffAdded(fs[1..])
  }

  function AddedBy(h: HunkRef, line: int, raw: string): seq<Candidate> {
    if raw != [] && raw[0] == '+' && IsBullet(raw[1..]) then [Candidate(line, raw[1..], h)] else []
  }

  function NextLine(line: int, raw: string): int {
    if raw != [] && raw[0] in " +" then line + 1 else line
  }

  lemma ReadsBody(s: Reader, raw: string)
    requires s.path != "" && s.hunkIndex >= 0 && HunkLine(raw)
    ensures var r := ReadLine(s, raw);
      r.Here() == s.Here() && r.cs == s.cs + AddedBy(s.Here(), s.newLine, raw) && r.newLine == NextLine(s.newLine, raw)
  {
    hide HunkStart, IsBullet;
    HunkLineIsInert(raw);
    assert s.cs + [] == s.cs;
  }

  lemma {:induction false} HunkReads(s: Reader, body: Lines)
    requires s.path != "" && s.hunkIndex >= 0 && Every(HunkLine, body)
    ensures var r := ReadAll(s, body);
      r.path == s.path && r.hunkIndex == s.hunkIndex && r.cs == s.cs + HunkAdded(s.Here(), s.newLine, body)
    decreases |body|
  {
    hide HunkLine, ReadLine, AddedBy, NextLine;
    if body == [] {
      assert s.cs + [] == s.cs;
    } else {
      assert HunkLine(body[0]);
      ReadsBody(s, body[0]);
      var s1 := ReadLine(s, body[0]);
      HunkReads(s1, body[1..]);
      var first := AddedBy(s.Here(), s.newLine, body[0]);
      assert s.cs + first + HunkAdded(s.Here(), s1.newLine, body[1..]) == s.cs + (first + HunkAdded(s.Here(), s1.newLine, body[1..]));
    }
  }

  lemma {:induction false} HunksRead(s: Reader, hs: seq<Hunk>)
    requires s.path != "" && s.hunkIndex >= -1 && forall i :: 0 <= i < |hs| ==> HunkOk(hs[i])
    ensures var r := ReadAll(s, HunksLines(hs));
      r.path == s.path && r.cs == s.cs + HunksAdded(s.path, hs, s.hunkIndex + 1)
    decreases |hs|
  {
    hide HunkStart, Every, HunkAdded;
    if hs == [] {
      assert s.cs + [] == s.cs;
    } else {
      var h, rest := hs[0], HunksLines(hs[1..]);
      assert HunkOk(h);
      ReadAppend(s, [h.header] + h.body, rest);
      ReadAppend(s, [h.header], h.body);
      ReadOne(s, h.header);
      var s1 := ReadLine(s, h.header);
      HunkReads(s1, h.body);
      var s2 := ReadAll(s1, h.body);
      HunksRead(s2, hs[1..]);
      var first := HunkAdded(HunkRef(s.path, s.hunkIndex + 1), HunkStart(h.header).value, h.body);
      var others := HunksAdded(s.path, hs[1..], s.hunkIndex + 2);
      assert s.cs + first + others == s.cs + (first + others);
    }
  }

  lemma {:induction false} ExtraReads(s: Reader, ls: Lines)
    requires s.path == "" && Every(Inert, ls)
    ensures ReadAll(s, ls) == s
    decreases |ls|
  {
    hide HunkStart;
    if ls != [] {
      assert Inert(ls[0]);
      ExtraReads(ReadLine(s, ls[0]), ls[1..]);
    }
  }

  /** Nothing is read out of a file without a new path. */
  lemma {:induction false} DeletedReads(s: Reader, hs: seq<Hunk>)
    requires s.path == "" && forall i :: 0 <= i < |hs| ==> HunkOk(hs[i])
    ensures ReadAll(s, HunksLines(hs)).cs == s.cs
    decreases |hs|
  {
    hide HunkStart, Every;
    if hs != [] {
      var h, rest := hs[0], HunksLines(hs[1..]);
      assert HunkOk(h);
      ReadAppend(s, [h.header] + h.body, rest);
      ReadAppend(s, [h.header], h.body);
      ReadOne(s, h.header);
      BodyIsInert(h.body);
      ExtraReads(ReadLine(s, h.header), h.body);
      DeletedReads(ReadLine(s, h.header), hs[1..]);
    }
  }

  lemma BodyIsInert(body: Lines)
    requires Every(HunkLine, body)
    ensures Every(Inert, body)
  {
    forall i | 0 <= i < |body| ensures Inert(body[i]) {
      HunkLineIsInert(body[i]);
    }
  }

  /** The header of a deleted file is no header to the reader. */
  lemma DeletedName(s: Reader)
    requires s.path == ""
    ensures ReadLine(s, "+++ /dev/null") == s
  {
    var raw := "+++ /dev/null";
    assert raw[4] != "+++ b/"[4] && raw[0] != "diff --git "[0] && raw[0] != "@@ -"[0];
  }

  lemma FileReads(s: Reader, f: FileDiff)
    requires FileOk(f)
    ensures ReadAll(s, FileLines(f)).cs == s.cs + FileAdded(f)
  {
    hide HunkStart, Every, HunksAdded, HunkOk, ReadAll, HunksLines;
    var name := NameLine(f);
    ReadAppend(s, [f.head] + f.extra + [name], HunksLines(f.hunks));
    ReadAppend(s, [f.head] + f.extra, [name]);
    ReadAppend(s, [f.head], f.extra);
    ReadOne(s, f.head);
    var s1 := ReadLine(s, f.head);
    ExtraReads(s1, f.extra);
    ReadOne(s1, name);
    if f.path.Some? {
      assert ReadLine(s1, name) == s1.(path := f.path.value);
      HunksRead(s1.(path := f.path.value), f.hunks);
    } else {
      DeletedName(s1);
      DeletedReads(s1, f.hunks);
      assert s.cs + [] == s.cs;
    }
  }

  ghost predicate FilesOk(fs: seq<FileDiff>) {
    forall i :: 0 <= i < |fs| ==> FileOk(fs[i])
  }

  lemma FilesOkParts(fs: seq<FileDiff>)
    requires FilesOk(fs) && fs != []
    ensures FileOk(fs[0]) && FilesOk(fs[1..])
  {
    hide FileOk;
  }

  /** Reading a diff finds exactly its added bullets, each with the line it has in the new file. */
  lemma {:induction false} DiffReads(s: Reader, fs: seq<FileDiff>)
    requires FilesOk(fs)
    ensures ReadAll(s, DiffLines(fs)).cs == s.cs + DiffAdded(fs)
    decreases |fs|
  {
    hide FilesOk, FileOk, FileLines, FileAdded, ReadAll;
    if fs == [] {
      ReadNothing(s);
      assert s.cs + [] == s.cs;
    } else {
      FilesOkParts(fs);
      FileReads(s, fs[0]);
      ReadAppend(s, FileLines(fs[0]), DiffLines(fs[1..]));
      var s1 := ReadAll(s, FileLines(fs[0]));
      DiffReads(s1, fs[1..]);
      var first := FileAdded(fs[0]);
      assert s.cs + first + DiffAdded(fs[1..]) == s.cs + (first + DiffAdded(fs[1..]));
    }
  }

  // ------------------------------------------------- the numbers are real lines

  /** The candidate's number is its line in the new version of its file. */
  ghost predicate IsReal(c: Candidate, files: map<string, Lines>) {
    c.hunk.path in files && At(files[c.hunk.path], c.lineNumber - 1, c.text) && IsBullet(c.text)
  }

  lemma {:induction false} HunkAddedIsReal(h: HunkRef, line: int, body: Lines, files: map<string, Lines>)
    requires h.path in files
    requires forall k :: 0 <= k < |NewTexts(body)| ==> At(files[h.path], line - 1 + k, NewTexts(body)[k])
    ensures forall c :: c in HunkAdded(h, line, body) ==> IsReal(c, files)
    decreases |body|
  {
    hide IsBullet, At;
    if body != [] {
      var raw := body[0];
      var texts, rest := NewTexts(body), NewTexts(body[1..]);
      var kept := raw != [] && raw[0] in " +";
      var next := if kept then line + 1 else line;
      assert texts == if kept then [raw[1..]] + rest else rest;
      forall k | 0 <= k < |rest| ensures At(files[h.path], next - 1 + k, rest[k]) {
        assert rest[k] == texts[if kept then k + 1 else k];
      }
      HunkAddedIsReal(h, next, body[1..], files);
      if kept {
        assert At(files[h.path], line - 1 + 0, texts[0]);
      }
    }
  }

  lemma {:induction false} HunksAddedAreReal(path: string, hs: seq<Hunk>, index: int, files: map<string, Lines>)
    requires path in files && forall i :: 0 <= i < |hs| ==> HunkOk(hs[i]) && HunkAgrees(hs[i], files[path])
    ensures forall c :: c in HunksAdded(path, hs, index) ==> IsReal(c, files)
  {
    hide HunkStart, IsReal, Every, HunkAdded, NewTexts, At;
    if hs != [] {
      assert HunkOk(hs[0]) && HunkAgrees(hs[0], files[path]);
      HunkAddedIsReal(HunkRef(path, index), HunkStart(hs[0].header).value, hs[0].body, files);
      HunksAddedAreReal(path, hs[1..], index + 1, files);
    }
  }

  lemma {:induction false} DiffAddedIsReal(fs: seq<FileDiff>, files: map<string, Lines>)
    requires DiffAgrees(fs, files)
    ensures forall c :: c in DiffAdded(fs) ==> IsReal(c, files)
  {
    hide IsReal, HunksAdded, HunkOk, HunkAgrees, Every;
    if fs != [] {
      assert FileOk(fs[0]) && FileAgrees(fs[0], files);
      if fs[0].path.Some? { HunksAddedAreReal(fs[0].path.value, fs[0].hunks, 0, files); }
      DiffAddedIsReal(fs[1..], files);
    }
  }

  /** The promoted numbers of a diff. */
  ghost predicate Promotes(ls: Lines, path: string, line: int) {
    var r := ReadAll(START, ls);
    PromotedAt(r.cs, DiffOf(r.cs, r.rs, r.headings), |r.cs|, path, line)
  }

  /** The i-th added bullet is the reason for promoting `line`: it stands there in the new file. */
  ghost predicate StandsAt(r: Reader, files: map<string, Lines>, path: string, line: int, i: nat) {
    && i < |r.cs| && IsPromoted(DiffOf(r.cs, r.rs, r.headings), i)
    && r.cs[i].hunk.path == path && r.cs[i].lineNumber == line
    && path in files && 1 <= line <= |files[path]| && files[path][line - 1] == r.cs[i].text
  }

  /** On a well-formed diff every promoted number is the line of a promoted bullet, with that
      bullet's own text, in the new version of the file. */
  lemma PromotedLinesAreReal(fs: seq<FileDiff>, files: map<string, Lines>, path: string, line: int)
    requires DiffAgrees(fs, files) && Promotes(DiffLines(fs), path, line)
    ensures var r := ReadAll(START, DiffLines(fs));
            && r.cs == DiffAdded(fs)
            && exists i :: StandsAt(r, files, path, line, i)
  {
    hide IsBullet, IsPromoted, FileAgrees, FileOk, DiffOf, ReadAll, DiffLines, DiffAdded;
    DiffReads(START, fs);
    DiffAddedIsReal(fs, files);
    var r := ReadAll(START, DiffLines(fs));
    assert [] + DiffAdded(fs) == DiffAdded(fs);
    var i :| 0 <= i < |r.cs| && IsPromoted(DiffOf(r.cs, r.rs, r.headings), i) && r.cs[i].hunk.path == path && r.cs[i].lineNumber == line;
    assert IsReal(r.cs[i], files);
    assert StandsAt(r, files, path, line, i);
  }

  /** Inside a hunk an added line is counted exactly if its text does not start like the rest of
      a file header; such a line ends the file instead. */
  lemma AddedLineIsCounted(s: Reader, text: string)
    requires s.path != "" && s.hunkIndex >= 0
    ensures ReadLine(s, "+" + text).newLine == s.newLine + 1 <==> !("++ b/" <= text)
    ensures "++ b/" <= text ==> ReadLine(s, "+" + text).path == text[5..]
  {
    var raw := "+" + text;
    assert raw[1..] == text;
    assert "+++ b/" <= raw <==> "++ b/" <= text by {
      assert "+++ b/"[1..] == "++ b/";
      if "+++ b/" <= raw {
        assert text[..5] == raw[..6][1..];
      }
      if "++ b/" <= text {
        assert raw[..6] == "+" + text[..5];
      }
    }
    if !("++ b/" <= text) {
      HunkLineIsInert(raw);
    } else {
      assert raw[6..] == text[5..];
    }
  }

  // ----------------------------------------------------------------- the loop

  /** `replace(/\r\n/g, "\n")` */
  function CrLf(s: string): string {
    if s == [] then []
    else if |s| > 1 && s[0] == '\r' && s[1] == '\n' then ['\n'] + CrLf(s[2..])
    else [s[0]] + CrLf(s[1..])
  }

  /** `collectPromotableAddedItemLines` */
  method CollectPromotableAddedItemLines(diffText: string) returns (linesByPath: map<string, set<int>>)
    ensures forall path, line :: Listed(linesByPath, path, line) <==> Promotes(Split(CrLf(diffText)), path, line)
  {
    hide HunkStart, IsBullet, Split, CrLf, ReadAll, DiffOf, Listed, PromotedAt;
    var ls := Split(CrLf(diffText));
    var path, newLine, hunkIndex := "", 0, -1;
    var cs: seq<Candidate>, rs: seq<Removal>, headings: set<HunkRef> := [], [], {};
    var i := 0;
    assert ls[0..] == ls;
    while i < |ls|
      invariant 0 <= i <= |ls|
      invariant ReadAll(START, ls) == ReadAll(Reader(path, newLine, hunkIndex, cs, rs, headings), ls[i..])
      decreases |ls| - i
    {
      var raw := ls[i];
      ReadNext(Reader(path, newLine, hunkIndex, cs, rs, headings), ls, i);
      i := i + 1;
      if "+++ b/" <= raw {
        path := raw[6..];
        continue;
      }
      if "diff --git " <= raw {
        path, hunkIndex := "", -1;
        continue;
      }
      var start := HunkStart(raw);
      if start.Some? {
        newLine, hunkIndex := start.value, hunkIndex + 1;
        continue;
      }
      if path == "" || hunkIndex < 0 || raw == [] {
        continue;
      }
      var text, hunk := raw[1..], HunkRef(path, hunkIndex);
      if raw[0] == '+' {
        if "+## [" <= raw {
          headings := headings + {hunk};
        }
        if IsBullet(text) {
          cs := cs + [Candidate(newLine, text, hunk)];
        }
        newLine := newLine + 1;
        continue;
      }
      if raw[0] == '-' {
        if IsBullet(text) {
          rs := rs + [Removal(text, hunk)];
        }
        continue;
      }
      if raw[0] == ' ' {
        newLine := newLine + 1;
      }
    }
    ReadNothing(Reader(path, newLine, hunkIndex, cs, rs, headings));
    assert ls[|ls|..] == [];
    linesByPath := CollectPromotable(cs, rs, headings);
    Collected(linesByPath, ls);
  }

  lemma Collected(linesByPath: map<string, set<int>>, ls: Lines)
    requires var r := ReadAll(START, ls); ListsPromoted(linesByPath, r.cs, DiffOf(r.cs, r.rs, r.headings), |r.cs|)
    ensures forall path, line :: Listed(linesByPath, path, line) <==> Promotes(ls, path, line)
  {
    hide ReadAll, DiffOf, Listed, PromotedAt;
  }

  lemma ReadNext(s: Reader, ls: Lines, i: nat)
    requires i < |ls|
    ensures ReadAll(s, ls[i..]) == ReadAll(ReadLine(s, ls[i]), ls[i + 1..])
  {
    hide ReadLine;
    assert ls[i..][1..] == ls[i + 1..];
  }

  lemma ReadNothing(s: Reader)
    ensures ReadAll(s, []) == s
  {}
}
