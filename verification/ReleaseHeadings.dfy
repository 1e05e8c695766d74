/** What the two regular expressions of the release notes read (scripts/ci-release-notes.ts:70-88,
    137-146), and what the spans and entries found with them are. */
module ReleaseHeadings {
  import opened Basics
  import opened Lists
  import opened ChangelogText
  import opened ReleaseNotes
  import Fix = ChangelogFix
  import Text

  // --------------------------------------------------------- version headings

  function HeadingOf(v: Version, rest: string): string {
    "## [" + VersionText(v) + "]" + rest
  }

  lemma TakesWith(v: Version, rest: string)
    requires Spelled(v) && rest != [] && !('0' <= rest[0] <= '9')
    ensures TakeVersion(VersionText(v) + rest) == Some((v, rest))
  {
    hide TakeNumber, Digits;
    var patch := v.patch + ("" + rest);
    var minor := v.minor + ("." + patch);
    assert "" + rest == rest;
    assert VersionText(v) + rest == v.major + ("." + minor);
    TakesNumber(v.major, ".", minor);
    TakesNumber(v.minor, ".", patch);
    TakesNumber(v.patch, "", rest);
  }

  /** A heading of a version reads back as the version's text, whatever follows the bracket. */
  lemma HeadingReadsBack(v: Version, rest: string)
    requires Spelled(v)
    ensures HeadingVersion(HeadingOf(v, rest)) == Some(VersionText(v))
  {
    hide TakeVersion, VersionText, Spelled;
    var line, s := HeadingOf(v, rest), VersionText(v);
    TakesWith(v, "]" + rest);
    assert line == "## [" + (s + ("]" + rest)) && line[4..] == s + ("]" + rest);
    assert line[4..][..|s|] == s;
  }

  lemma NumberTaken(s: string, stop: string)
    requires TakeNumber(s, stop).Some?
    ensures Digits(TakeNumber(s, stop).value.0) && s == TakeNumber(s, stop).value.0 + (stop + TakeNumber(s, stop).value.1)
  {
    var k := Fix.DigitsAhead(s);
    assert s == s[..k] + s[k..] && s[k..] == stop + s[k..][|stop|..];
  }

  lemma VersionTaken(s: string)
    requires TakeVersion(s).Some?
    ensures Spelled(TakeVersion(s).value.0) && s == VersionText(TakeVersion(s).value.0) + TakeVersion(s).value.1
  {
    hide TakeNumber, Digits;
    var a := TakeNumber(s, ".").value;
    var b := TakeNumber(a.1, ".").value;
    var c := TakeNumber(b.1, "").value;
    NumberTaken(s, ".");
    NumberTaken(a.1, ".");
    NumberTaken(b.1, "");
    assert "" + c.1 == c.1;
    assert a.0 + ("." + (b.0 + ("." + (c.0 + c.1)))) == a.0 + ("." + (b.0 + ("." + c.0))) + c.1;
  }

  /** Nothing else reads as one. */
  lemma HeadingIsSpelled(line: string) returns (v: Version, rest: string)
    requires HeadingVersion(line).Some?
    ensures Spelled(v) && line == HeadingOf(v, rest) && HeadingVersion(line) == Some(VersionText(v))
  {
    hide TakeVersion, VersionText, Spelled;
    var (w, after) := TakeVersion(line[4..]).value;
    VersionTaken(line[4..]);
    v, rest := w, after[1..];
    assert after == "]" + rest;
    assert line == "## [" + line[4..];
    assert line[4..][..|line[4..]| - |after|] == VersionText(v);
    assert "## [" + (VersionText(v) + ("]" + rest)) == HeadingOf(v, rest);
  }

  /** A line that opens the section of the version spelled `text`. */
  ghost predicate Opens(line: string, text: string) {
    exists v, rest :: Spelled(v) && text == VersionText(v) && line == HeadingOf(v, rest)
  }

  lemma OpensExactly(line: string, text: string)
    ensures HeadingVersion(line) == Some(text) <==> Opens(line, text)
  {
    hide HeadingVersion, VersionText, HeadingOf, Spelled;
    if HeadingVersion(line) == Some(text) {
      var v, rest := HeadingIsSpelled(line);
    }
    if v, rest :| Spelled(v) && text == VersionText(v) && line == HeadingOf(v, rest) {
      HeadingReadsBack(v, rest);
    }
  }

  // -------------------------------------------------------------------- spans

  /** The span of the section that line `i` opens: its lines run up to the next line that starts
      with a heading's bracket, or to the end. */
  ghost predicate SpanAt(lines: Lines, i: nat, s: Span) {
    && i < |lines| && Opens(lines[i], s.version)
    && i + 1 + |s.body| <= |lines| && s.body == lines[i + 1..i + 1 + |s.body|]
    && (forall j :: 0 <= j < |s.body| ==> !("## [" <= s.body[j]))
    && (i + 1 + |s.body| < |lines| ==> "## [" <= lines[i + 1 + |s.body|])
  }

  /** The k-th span is that of the k-th line that opens a section. */
  ghost predicate SpansAt(lines: Lines, at: seq<nat>, spans: seq<Span>) {
    && |at| == |spans|
    && (forall k, l :: 0 <= k < l < |at| ==> at[k] < at[l])
    && (forall k :: 0 <= k < |at| ==> SpanAt(lines, at[k], spans[k]))
    && (forall i, text :: 0 <= i < |lines| && Opens(lines[i], text) ==> i in at)
  }

  lemma HeadSpan(lines: Lines, s: Span)
    requires lines != [] && Opens(lines[0], s.version) && s.body == BodyOf(lines[1..])
    ensures SpanAt(lines, 0, s)
  {
    hide Opens;
    var n := |s.body|;
    AheadMeans(IsHeading, lines[1..]);
    assert lines[1..][..n] == lines[1..1 + n];
    forall j | 0 <= j < n ensures !("## [" <= s.body[j]) {
      assert !IsHeading(lines[1..][j]);
    }
    if 1 + n < |lines| {
      assert IsHeading(lines[1..][n]);
    }
  }

  lemma AheadMeans(p: string -> bool, s: Lines)
    ensures var n := Ahead(p, s); n <= |s| && (forall j :: 0 <= j < n ==> !p(s[j])) && (n < |s| ==> p(s[n]))
  {
    hide Ahead;
    var n := Ahead(p, s);
    forall j | 0 <= j < n ensures !p(s[j]) {
      assert !p(s[..n][j]);
    }
  }

  lemma LaterSpan(lines: Lines, i: nat, s: Span)
    requires lines != [] && SpanAt(lines[1..], i, s)
    ensures SpanAt(lines, i + 1, s)
  {
    hide Opens;
    var n := |s.body|;
    assert lines[1..][i + 1..i + 1 + n] == lines[i + 2..i + 2 + n];
  }

  /** The positions of the lines that open a section. */
  ghost function Openings(lines: Lines): seq<nat> {
    if lines == [] then []
    else (if HeadingVersion(lines[0]).Some? then [0] else []) + Later(Openings(lines[1..]))
  }

  ghost function Later(at: seq<nat>): seq<nat> {
    seq(|at|, k requires 0 <= k < |at| => at[k] + 1)
  }

  lemma {:induction false} SpansAreOpened(lines: Lines)
    ensures SpansAt(lines, Openings(lines), Spans(lines))
  {
    hide HeadingVersion, BodyOf, SpanAt, Opens;
    if lines != [] {
      SpansAreOpened(lines[1..]);
      SpansGrow(lines, Openings(lines[1..]), Spans(lines[1..]));
    }
  }

  lemma SpansLater(lines: Lines, at: seq<nat>, spans: seq<Span>)
    requires lines != [] && SpansAt(lines[1..], at, spans)
    ensures forall k :: 0 <= k < |at| ==> SpanAt(lines, Later(at)[k], spans[k])
    ensures forall i, text :: 0 < i < |lines| && Opens(lines[i], text) ==> i in Later(at)
  {
    hide SpanAt, Opens, Later;
    LaterIs(at);
    forall k | 0 <= k < |at| ensures SpanAt(lines, Later(at)[k], spans[k]) {
      LaterSpan(lines, at[k], spans[k]);
    }
    forall i, text | 0 < i < |lines| && Opens(lines[i], text) ensures i in Later(at) {
      assert Opens(lines[1..][i - 1], text);
      InLater(at, i - 1);
    }
  }

  lemma SpansFronted(lines: Lines, at: seq<nat>, spans: seq<Span>, s: Span)
    requires |at| == |spans| && SpanAt(lines, 0, s)
    requires forall k, l :: 0 <= k < l < |at| ==> at[k] < at[l]
    requires forall k :: 0 <= k < |at| ==> at[k] > 0 && SpanAt(lines, at[k], spans[k])
    requires forall i, text :: 0 < i < |lines| && Opens(lines[i], text) ==> i in at
    ensures SpansAt(lines, [0] + at, [s] + spans)
  {
    hide SpanAt, Opens;
    Fronted(at, s, spans);
    var all := [0] + at;
    forall k, l | 0 <= k < l < |all| ensures all[k] < all[l] {
      if k > 0 {
        assert at[k - 1] < at[l - 1];
      }
    }
  }

  lemma SpansGrow(lines: Lines, at: seq<nat>, spans: seq<Span>)
    requires lines != [] && SpansAt(lines[1..], at, spans)
    ensures SpansAt(lines, (if HeadingVersion(lines[0]).Some? then [0] else []) + Later(at),
      (if HeadingVersion(lines[0]).Some? then [Span(HeadingVersion(lines[0]).value, BodyOf(lines[1..]))] else []) + spans)
  {
    hide HeadingVersion, BodyOf, SpanAt, Opens, Later;
    var m := HeadingVersion(lines[0]);
    SpansLater(lines, at, spans);
    LaterIs(at);
    if m.Some? {
      OpensExactly(lines[0], m.value);
      var s := Span(m.value, BodyOf(lines[1..]));
      HeadSpan(lines, s);
      SpansFronted(lines, Later(at), spans, s);
    } else {
      forall text ensures !Opens(lines[0], text) {
        OpensExactly(lines[0], text);
      }
      assert [] + Later(at) == Later(at) && [] + spans == spans;
      assert SpansAt(lines, Later(at), spans);
    }
  }

  // ---------------------------------------------------------------- categories

  /** `line` is "### ", the name, white space: the shortest name of at least one character that
      leaves nothing but white space, on one line. */
  ghost predicate Names(line: string, name: string, blanks: string) {
    && line == "### " + name + blanks && name != [] && Text.AllSpace(blanks)
    && (|name| > 1 ==> !Text.IsSpace(name[|name| - 1]))
    && (forall i :: 0 <= i < |name| ==> name[i] !in {'\n', '\r', 0x2028 as char, 0x2029 as char})
  }

  lemma TrimEndSmall(name: string)
    requires name != [] && (|name| > 1 ==> !Text.IsSpace(name[|name| - 1]))
    ensures Text.TrimEnd(name) == if Text.IsSpace(name[|name| - 1]) then [] else name
  {
    hide Text.IsSpace;
  }

  /** A category heading reads back as its name. */
  lemma CategoryReadsBack(line: string, name: string, blanks: string)
    requires Names(line, name, blanks)
    ensures CategoryOf(line) == Some(name)
  {
    hide Text.IsSpace, Text.TrimEnd, Text.AllSpace, OneLine;
    NoBreaks(name);
    var rest := line[4..];
    assert rest == name + blanks && rest[..1] == name[..1];
    Text.TrimEndSkips(name, blanks);
    TrimEndSmall(name);
    if Text.TrimEnd(rest) == [] {
      assert name == name[..1];
    }
  }

  lemma NoBreaks(s: string)
    ensures OneLine(s) <==> forall i :: 0 <= i < |s| ==> s[i] !in {'\n', '\r', 0x2028 as char, 0x2029 as char}
  {}

  /** And nothing else does. */
  lemma CategoryIsNamed(line: string) returns (blanks: string)
    requires CategoryOf(line).Some?
    ensures Names(line, CategoryOf(line).value, blanks)
  {
    hide Text.IsSpace, Text.TrimEnd, OneLine;
    var rest, name := line[4..], CategoryOf(line).value;
    Text.TrimEndIs(rest);
    blanks := rest[|name|..];
    NoBreaks(name);
    assert line == "### " + rest && rest == name + blanks;
    if Text.TrimEnd(rest) == [] {
      assert rest[0..] == rest;
    }
  }

  ghost predicate HasName(line: string, name: string) {
    exists blanks :: Names(line, name, blanks)
  }

  lemma CategoryExactly(line: string, name: string)
    ensures CategoryOf(line) == Some(name) <==> HasName(line, name)
  {
    hide Names, CategoryOf;
    if CategoryOf(line) == Some(name) {
      var blanks := CategoryIsNamed(line);
    }
    if blanks :| Names(line, name, blanks) {
      CategoryReadsBack(line, name, blanks);
    }
  }

  // ------------------------------------------------------------------- entries

  /** Line `i` of a body is a nonblank line and no category heading, and `name` is the last
      category heading before it; without one, `name` is what was open before the body. */
  ghost predicate FiledAt(body: Lines, before: Option<string>, i: nat, e: Entry) {
    && i < |body| && e.line == body[i] && !Text.AllSpace(body[i]) && (forall name :: !HasName(body[i], name))
    && Open(body[..i], before, e.category)
  }

  ghost predicate Open(body: Lines, before: Option<string>, name: string) {
    || (before == Some(name) && NoCategory(body))
    || exists c :: 0 <= c < |body| && HasName(body[c], name) && NoCategory(body[c + 1..])
  }

  ghost predicate NoCategory(body: Lines) {
    forall c, name :: 0 <= c < |body| ==> !HasName(body[c], name)
  }

  /** The k-th entry is the k-th line that is filed under a category. */
  ghost predicate EntriesAt(body: Lines, before: Option<string>, at: seq<nat>, es: seq<Entry>) {
    && |at| == |es|
    && (forall k, l :: 0 <= k < l < |at| ==> at[k] < at[l])
    && (forall k :: 0 <= k < |at| ==> FiledAt(body, before, at[k], es[k]))
    && (forall i, e :: 0 <= i < |body| && FiledAt(body, before, i, e) ==> i in at)
  }

  /** The category that is open behind a line. */
  ghost function Behind(line: string, before: Option<string>): Option<string> {
    if CategoryOf(line).Some? then CategoryOf(line) else before
  }

  lemma CategoryOrNot(line: string)
    ensures CategoryOf(line).Some? ==> HasName(line, CategoryOf(line).value)
    ensures forall name :: HasName(line, name) ==> CategoryOf(line) == Some(name)
  {
    hide CategoryOf, HasName;
    if CategoryOf(line).Some? {
      CategoryExactly(line, CategoryOf(line).value);
    }
    forall name | HasName(line, name) ensures CategoryOf(line) == Some(name) {
      CategoryExactly(line, name);
    }
  }

  /** One line more in front does not change what is open behind the rest. */
  lemma OpenShifts(line: string, body: Lines, before: Option<string>, name: string)
    ensures Open([line] + body, before, name) <==> Open(body, Behind(line, before), name)
  {
    hide HasName, CategoryOf;
    CategoryOrNot(line);
    var all := [line] + body;
    assert all[1..] == body;
    assert forall c :: 0 <= c < |body| ==> all[c + 1] == body[c] && all[c + 2..] == body[c + 1..];
    if NoCategory(all) {
      assert forall c, n :: 0 <= c < |body| && HasName(body[c], n) ==> HasName(all[c + 1], n);
      assert forall n :: !HasName(all[0], n);
    }
    if c :| 0 <= c < |all| && HasName(all[c], name) && NoCategory(all[c + 1..]) {
      if c > 0 {
        assert HasName(body[c - 1], name) && NoCategory(body[c..]);
      }
    }
    if c :| 0 <= c < |body| && HasName(body[c], name) && NoCategory(body[c + 1..]) {
      assert HasName(all[c + 1], name) && NoCategory(all[c + 2..]);
    }
    if Behind(line, before) == Some(name) && NoCategory(body) {
      if CategoryOf(line).Some? {
        assert HasName(all[0], name) && NoCategory(all[1..]);
      } else {
        assert NoCategory(all);
      }
    }
  }

  lemma FiledShifts(body: Lines, before: Option<string>, i: nat, e: Entry)
    requires body != []
    ensures FiledAt(body, before, i + 1, e) <==> FiledAt(body[1..], Behind(body[0], before), i, e)
  {
    hide HasName, CategoryOf, Open, Text.AllSpace;
    if i + 1 < |body| {
      assert body[..i + 1] == [body[0]] + body[1..][..i];
      OpenShifts(body[0], body[1..][..i], before, e.category);
    }
  }

  lemma FiledFirst(body: Lines, before: Option<string>, e: Entry)
    requires body != []
    ensures FiledAt(body, before, 0, e) <==>
      e.line == body[0] && !IsBlank(body[0]) && CategoryOf(body[0]).None? && before == Some(e.category)
  {
    hide HasName, CategoryOf, Text.AllSpace, Text.Trim;
    CategoryOrNot(body[0]);
    Text.TrimEmpty(body[0]);
    assert body[..0] == [];
  }

  /** The filed lines of a body, in order, are its entries. */
  lemma {:induction false} EntriesAreFiled(body: Lines, before: Option<string>)
    ensures exists at :: EntriesAt(body, before, at, BodyEntries(body, before))
    decreases |body|
  {
    hide EntriesAt, CategoryOf, IsBlank;
    if body == [] {
      NothingFiled(before);
      assert EntriesAt(body, before, [], BodyEntries(body, before));
    } else {
      var next := Behind(body[0], before);
      EntriesAreFiled(body[1..], next);
      var at :| EntriesAt(body[1..], next, at, BodyEntries(body[1..], next));
      EntriesGrow(body, before, at, BodyEntries(body[1..], next));
      FirstEntry(body, before);
    }
  }

  lemma NothingFiled(before: Option<string>)
    ensures EntriesAt([], before, [], [])
  {}

  ghost function First(body: Lines, before: Option<string>): seq<Entry>
    requires body != []
  {
    if before.Some? && CategoryOf(body[0]).None? && !IsBlank(body[0]) then [Entry(before.value, body[0])] else []
  }

  lemma CategorizedOne(category: string, line: string)
    ensures Categorized(category, [line]) == if IsBlank(line) then [] else [Entry(category, line)]
  {
    assert [line][1..] == [];
  }

  lemma FirstEntry(body: Lines, before: Option<string>)
    requires body != []
    ensures BodyEntries(body, before) == First(body, before) + BodyEntries(body[1..], Behind(body[0], before))
  {
    hide CategoryOf, IsBlank, Categorized;
    if before.Some? {
      CategorizedOne(before.value, body[0]);
    }
    var rest := BodyEntries(body[1..], Behind(body[0], before));
    assert [] + rest == rest;
  }

  lemma InLater(at: seq<nat>, i: nat)
    ensures i + 1 in Later(at) <==> i in at
    ensures 0 !in Later(at)
  {
    if i in at {
      var k :| 0 <= k < |at| && at[k] == i;
      assert Later(at)[k] == i + 1;
    }
  }

  lemma FiledLater(body: Lines, before: Option<string>, at: seq<nat>, es: seq<Entry>)
    requires body != [] && EntriesAt(body[1..], Behind(body[0], before), at, es)
    ensures forall k :: 0 <= k < |at| ==> FiledAt(body, before, Later(at)[k], es[k])
    ensures forall i: nat, e :: FiledAt(body, before, i, e) && i > 0 ==> i in Later(at)
  {
    hide FiledAt, CategoryOf, Later;
    LaterIs(at);
    forall k | 0 <= k < |at| ensures FiledAt(body, before, Later(at)[k], es[k]) {
      FiledShifts(body, before, at[k], es[k]);
    }
    forall i: nat, e | FiledAt(body, before, i, e) && i > 0 ensures i in Later(at) {
      FiledShifts(body, before, i - 1, e);
      FiledInside(body[1..], Behind(body[0], before), i - 1, e);
      InLater(at, i - 1);
    }
  }

  lemma LaterIs(at: seq<nat>)
    ensures |Later(at)| == |at| && forall k :: 0 <= k < |at| ==> Later(at)[k] == at[k] + 1
  {}

  lemma FiledInside(body: Lines, before: Option<string>, i: nat, e: Entry)
    requires FiledAt(body, before, i, e)
    ensures i < |body|
  {
    hide HasName, Open;
  }

  /** A list of positions with 0 put in front. */
  lemma Fronted<T>(at: seq<nat>, x: T, s: seq<T>)
    requires |at| == |s|
    ensures |[0] + at| == |[x] + s| && ([0] + at)[0] == 0 && ([x] + s)[0] == x
    ensures forall k :: 0 < k < |[0] + at| ==> ([0] + at)[k] == at[k - 1] && ([x] + s)[k] == s[k - 1]
    ensures forall i: nat :: i in [0] + at <==> i == 0 || i in at
  {}

  lemma EntriesFronted(body: Lines, before: Option<string>, at: seq<nat>, es: seq<Entry>, e: Entry)
    requires |at| == |es| && FiledAt(body, before, 0, e)
    requires forall k, l :: 0 <= k < l < |at| ==> at[k] < at[l]
    requires forall k :: 0 <= k < |at| ==> at[k] > 0 && FiledAt(body, before, at[k], es[k])
    requires forall i: nat, e :: FiledAt(body, before, i, e) && i > 0 ==> i in at
    ensures EntriesAt(body, before, [0] + at, [e] + es)
  {
    hide FiledAt;
    Fronted(at, e, es);
    var all, entries := [0] + at, [e] + es;
    forall k, l | 0 <= k < l < |all| ensures all[k] < all[l] {
      if k > 0 {
        assert at[k - 1] < at[l - 1];
      }
    }
  }

  lemma EntriesGrow(body: Lines, before: Option<string>, at: seq<nat>, es: seq<Entry>)
    requires body != [] && EntriesAt(body[1..], Behind(body[0], before), at, es)
    ensures EntriesAt(body, before, (if First(body, before) == [] then [] else [0]) + Later(at), First(body, before) + es)
  {
    hide FiledAt, CategoryOf, IsBlank, Later, First;
    FiledLater(body, before, at, es);
    LaterIs(at);
    FirstFiled(body, before);
    var first := First(body, before);
    if first == [] {
      assert [] + Later(at) == Later(at) && [] + es == es;
      assert EntriesAt(body, before, Later(at), es);
    } else {
      EntriesFronted(body, before, Later(at), es, first[0]);
      assert first == [first[0]];
    }
  }

  lemma FirstFiled(body: Lines, before: Option<string>)
    requires body != []
    ensures |First(body, before)| <= 1
    ensures forall e :: FiledAt(body, before, 0, e) <==> First(body, before) == [e]
  {
    hide FiledAt, CategoryOf, IsBlank;
    forall e ensures FiledAt(body, before, 0, e) <==> First(body, before) == [e] {
      FiledFirst(body, before, e);
    }
  }

  // ---------------------------------------------------------------- the range

  /** The versions chosen are those above the floor and not above the target; without a floor, the
      target alone. */
  lemma RangeMeans(floor: Option<string>, target: string, s: Span)
    requires CanonicalVersion(s.version) && CanonicalVersion(target) && (floor.Some? ==> CanonicalVersion(floor.value))
    ensures InRange(floor, target, s) <==> match floor
      case None => Numbers(s.version) == Numbers(target)
      case Some(f) => Precedes(Numbers(f), Numbers(s.version)) && !Precedes(Numbers(target), Numbers(s.version))
  {
    hide CanonicalVersion, CompareVersions, Numbers, Precedes;
    CompareIsPrecedence(s.version, target);
    if floor.Some? {
      CompareIsPrecedence(s.version, floor.value);
    }
  }
}
