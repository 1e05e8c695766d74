/** Release notes merged from the versions of a changelog (scripts/ci-release-notes.ts:38-180). */
module ReleaseNotes {
  import opened Basics
  import opened Lists
  import opened StableSort
  import opened ChangelogText
  import Fix = ChangelogFix
  import Text

  // ---------------------------------------------------------------- versions

  datatype Version = Version(major: string, minor: string, patch: string)

  /** Digits in front of `s`, then `stop`: the digits and what follows. */
  function TakeNumber(s: string, stop: string): Option<(string, string)> {
    var k := Fix.DigitsAhead(s);
    if k == 0 || !(stop <= s[k..]) then None else Some((s[..k], s[k..][|stop|..]))
  }

  /** `(\d+)\.(\d+)\.(\d+)` in front of `s`, and what follows. */
  function TakeVersion(s: string): Option<(Version, string)> {
    var a := TakeNumber(s, ".");
    if a.None? then None
    else
      var b := TakeNumber(a.value.1, ".");
      if b.None? then None
      else
        var c := TakeNumber(b.value.1, "");
        if c.None? then None else Some((Version(a.value.0, b.value.0, c.value.0), c.value.1))
  }

  function ParseVersion(s: string): Option<Version> {
    var t := TakeVersion(Text.Trim(if s != [] && s[0] == 'v' then s[1..] else s));
    if t.None? || t.value.1 != [] then None else Some(t.value.0)
  }

  predicate Digits(s: string) {
    s != [] && forall i :: 0 <= i < |s| ==> '0' <= s[i] <= '9'
  }

  function Number(s: string): int {
    if Digits(s) then Fix.Value(s) else 0
  }

  function CompareParsed(a: Version, b: Version): int {
    if a.major != b.major then Number(a.major) - Number(b.major)
    else if a.minor != b.minor then Number(a.minor) - Number(b.minor)
    else Number(a.patch) - Number(b.patch)
  }

  /** `compareVersions` */
  function CompareVersions(a: string, b: string): int {
    var x, y := ParseVersion(a), ParseVersion(b);
    if x.None? || y.None? then 0 else CompareParsed(x.value, y.value)
  }

  /** Digits without a leading zero, as Semantic Versioning 2.0.0 (section 2) asks. */
  predicate Canonical(s: string) {
    Digits(s) && (s == "0" || s[0] != '0')
  }

  predicate CanonicalVersion(s: string) {
    match ParseVersion(s)
    case None => false
    case Some(v) => Canonical(v.major) && Canonical(v.minor) && Canonical(v.patch)
  }

  datatype Triple = Triple(major: int, minor: int, patch: int)

  function TripleOf(v: Version): Triple {
    Triple(Number(v.major), Number(v.minor), Number(v.patch))
  }

  function Numbers(s: string): Triple {
    match ParseVersion(s)
    case None => Triple(0, 0, 0)
    case Some(v) => TripleOf(v)
  }

  /** Precedence as section 11 of Semantic Versioning 2.0.0 has it: major, minor, patch, as numbers. */
  predicate Precedes(a: Triple, b: Triple) {
    a.major < b.major || (a.major == b.major && (a.minor < b.minor || (a.minor == b.minor && a.patch < b.patch)))
  }

  lemma ValueBounds(s: string)
    requires Digits(s)
    ensures Fix.Value(s) >= 0 && (s[0] != '0' ==> Fix.Value(s) >= 1) && (s[0] != '0' && |s| > 1 ==> Fix.Value(s) >= 10) && (|s| == 1 ==> Fix.Value(s) == (s[0] - '0') as int)
    decreases |s|
  {
    if |s| > 1 {
      ValueBounds(s[..|s| - 1]);
    }
  }

  /** Without leading zeros, equal numbers are equal strings. */
  lemma {:induction false} CanonicalIsInjective(a: string, b: string)
    requires Canonical(a) && Canonical(b) && Fix.Value(a) == Fix.Value(b)
    ensures a == b
    decreases |a|
  {
    ValueBounds(a);
    ValueBounds(b);
    if |a| > 1 && |b| > 1 {
      var x, y := a[..|a| - 1], b[..|b| - 1];
      ValueBounds(x);
      ValueBounds(y);
      var c, d := a[|a| - 1], b[|b| - 1];
      assert Fix.Value(a) == Fix.Value(x) * 10 + (c - '0') as int;
      assert Fix.Value(b) == Fix.Value(y) * 10 + (d - '0') as int;
      CanonicalIsInjective(x, y);
      assert a == x + [c] && b == y + [d];
    }
  }

  lemma NumbersDiffer(a: string, b: string)
    requires Canonical(a) && Canonical(b)
    ensures a != b <==> Number(a) != Number(b)
  {
    if Number(a) == Number(b) {
      CanonicalIsInjective(a, b);
    }
  }

  /** Between versions without leading zeros the comparison is exactly precedence. */
  lemma CompareIsPrecedence(a: string, b: string)
    requires CanonicalVersion(a) && CanonicalVersion(b)
    ensures CompareVersions(a, b) < 0 <==> Precedes(Numbers(a), Numbers(b))
    ensures CompareVersions(a, b) > 0 <==> Precedes(Numbers(b), Numbers(a))
    ensures CompareVersions(a, b) == 0 <==> Numbers(a) == Numbers(b)
  {
    hide Canonical, Number, ParseVersion;
    var x, y := ParseVersion(a).value, ParseVersion(b).value;
    NumbersDiffer(x.major, y.major);
    NumbersDiffer(x.minor, y.minor);
    NumbersDiffer(x.patch, y.patch);
  }

  /** The comparison says of two versions what precedence says of them, both ways. */
  predicate AgreesWithPrecedence(a: Version, b: Version) {
    && (CompareParsed(a, b) < 0 <==> Precedes(TripleOf(a), TripleOf(b)))
    && (CompareParsed(a, b) > 0 <==> Precedes(TripleOf(b), TripleOf(a)))
  }

  /** Two spellings of one number. */
  predicate Respelled(s: string, t: string) {
    s != t && Number(s) == Number(t)
  }

  /** The first component spelled in two ways has nothing behind it to tell the versions apart. */
  predicate RespelledAlike(a: Version, b: Version) {
    && (Respelled(a.major, b.major) ==> Number(a.minor) == Number(b.minor) && Number(a.patch) == Number(b.patch))
    && (a.major == b.major && Respelled(a.minor, b.minor) ==> Number(a.patch) == Number(b.patch))
  }

  /** The comparison of any two strings that read as versions is precedence if and only if no
      leading zero stops it early. */
  lemma CompareExactly(a: string, b: string)
    requires ParseVersion(a).Some? && ParseVersion(b).Some?
    ensures CompareVersions(a, b) == CompareParsed(ParseVersion(a).value, ParseVersion(b).value)
    ensures AgreesWithPrecedence(ParseVersion(a).value, ParseVersion(b).value) <==>
            RespelledAlike(ParseVersion(a).value, ParseVersion(b).value)
  {
    hide ParseVersion, Number;
  }

  lemma {:induction false} DigitsAheadIs(d: string, rest: string)
    requires Digits(d) && (rest == [] || !('0' <= rest[0] <= '9'))
    ensures Fix.DigitsAhead(d + rest) == |d|
  {
    assert (d + rest)[1..] == d[1..] + rest;
    if |d| == 1 {
      assert d[1..] + rest == rest;
    } else {
      DigitsAheadIs(d[1..], rest);
    }
  }

  lemma TakesNumber(d: string, stop: string, rest: string)
    requires Digits(d) && (stop + rest == [] || !('0' <= (stop + rest)[0] <= '9'))
    ensures TakeNumber(d + (stop + rest), stop) == Some((d, rest))
  {
    var s := d + (stop + rest);
    DigitsAheadIs(d, stop + rest);
    assert s[..|d|] == d && s[|d|..] == stop + rest && (stop + rest)[|stop|..] == rest;
  }

  function VersionText(v: Version): string {
    v.major + ("." + (v.minor + ("." + v.patch)))
  }

  predicate Spelled(v: Version) {
    Digits(v.major) && Digits(v.minor) && Digits(v.patch)
  }

  lemma TakesVersion(v: Version)
    requires Spelled(v)
    ensures TakeVersion(VersionText(v)) == Some((v, ""))
  {
    hide TakeNumber;
    TakesNumber(v.major, ".", v.minor + ("." + v.patch));
    TakesNumber(v.minor, ".", v.patch);
    assert v.patch == v.patch + ("" + "");
    TakesNumber(v.patch, "", "");
  }

  lemma VersionTextIsTrimmed(v: Version)
    requires Spelled(v)
    ensures var s := VersionText(v); s != [] && s[0] != 'v' && Text.Trim(s) == s
  {
    hide Text.Trim;
    var s := VersionText(v);
    assert s[0] == v.major[0] && s[|s| - 1] == v.patch[|v.patch| - 1];
    Text.TrimFixed(s);
  }

  /** Three runs of digits joined by dots read as a version, whatever their zeros. */
  lemma VersionReadsBack(v: Version)
    requires Spelled(v)
    ensures ParseVersion(VersionText(v)) == Some(v)
  {
    hide TakeVersion, VersionText, Spelled, Text.Trim;
    TakesVersion(v);
    VersionTextIsTrimmed(v);
  }

  lemma SmallNumbers()
    ensures Number("02") == Number("2") == 2 && Number("3") == 3 && Number("4") == 4
  {
    assert Fix.Value([]) == 0 && Fix.Value("0") == 0 && "02"[..1] == "0" && Fix.Value("02") == 2;
    assert Fix.Value("2") == 2 && Fix.Value("3") == 3 && Fix.Value("4") == 4;
  }

  /** "1.02.3" precedes "1.2.4", and the comparison calls them equal. */
  lemma LeadingZeroHidesPatch()
    ensures CompareVersions("1.02.3", "1.2.4") == 0 && Precedes(Numbers("1.02.3"), Numbers("1.2.4"))
  {
    hide ParseVersion, Number;
    var (a, b) := (Version("1", "02", "3"), Version("1", "2", "4"));
    VersionReadsBack(a);
    VersionReadsBack(b);
    assert VersionText(a) == "1.02.3" && VersionText(b) == "1.2.4";
    SmallNumbers();
  }

  // ------------------------------------------------------------------- spans

  /** A version's heading and the lines up to the next heading. */
  datatype Span = Span(version: string, body: Lines)

  predicate IsHeading(line: string) {
    "## [" <= line
  }

  /** `/^## \[(\d+\.\d+\.\d+)\]/`: the version text */
  function HeadingVersion(line: string): Option<string> {
    if !IsHeading(line) then None
    else
      var t := TakeVersion(line[4..]);
      if t.None? || !("]" <= t.value.1) then None else Some(line[4..][..|line[4..]| - |t.value.1|])
  }

  /** The lines up to the next heading. */
  function BodyOf(lines: Lines): Lines {
    lines[..Ahead(IsHeading, lines)]
  }

  /** `enumerateChangelogVersions`, each span with its lines. */
  function Spans(lines: Lines): seq<Span> {
    if lines == [] then []
    else
      (if HeadingVersion(lines[0]).Some? then [Span(HeadingVersion(lines[0]).value, BodyOf(lines[1..]))] else []) + Spans(lines[1..])
  }

  // --------------------------------------------------------------- selection

  predicate InRange(floor: Option<string>, target: string, s: Span) {
    && CompareVersions(s.version, target) <= 0
    && match floor
       case None => CompareVersions(s.version, target) == 0
       case Some(f) => CompareVersions(s.version, f) > 0
  }

  function NewestFirst(a: Span, b: Span): int {
    CompareVersions(b.version, a.version)
  }

  function Choose(spans: seq<Span>, floor: Option<string>, target: string): seq<Span> {
    if spans == [] then []
    else (if InRange(floor, target, spans[0]) then [spans[0]] else []) + Choose(spans[1..], floor, target)
  }

  /** The versions in (floor, target], newest first. */
  function Selected(spans: seq<Span>, floor: Option<string>, target: string): seq<Span> {
    SortBy(NewestFirst, Choose(spans, floor, target))
  }

  // ------------------------------------------------------------------ entries

  /** A nonblank line under a category. */
  datatype Entry = Entry(category: string, line: string)

  function Key(e: Entry): string {
    Text.Trim(e.line)
  }

  predicate Breaks(c: char) {
    c == '\n' || c == '\r' || c as int == 0x2028 || c as int == 0x2029
  }

  predicate OneLine(s: string) {
    forall i :: 0 <= i < |s| ==> !Breaks(s[i])
  }

  /** `/^### (.+?)\s*$/` */
  function CategoryOf(line: string): Option<string> {
    if !("### " <= line) || |line| == 4 then None
    else
      var rest := line[4..];
      var name := if Text.TrimEnd(rest) == [] then rest[..1] else Text.TrimEnd(rest);
      if OneLine(name) then Some(name) else None
  }

  /** The lines of `buf` that are not blank, under `category`. */
  function Categorized(category: string, buf: Lines): seq<Entry> {
    if buf == [] then []
    else (if IsBlank(buf[0]) then [] else [Entry(category, buf[0])]) + Categorized(category, buf[1..])
  }

  function BodyEntries(body: Lines, category: Option<string>): seq<Entry>
    decreases |body|
  {
    if body == [] then []
    else if CategoryOf(body[0]).Some? then BodyEntries(body[1..], CategoryOf(body[0]))
    else (if category.None? then [] else Categorized(category.value, [body[0]])) + BodyEntries(body[1..], category)
  }

  function SpanEntries(spans: seq<Span>): seq<Entry> {
    if spans == [] then [] else BodyEntries(spans[0].body, None) + SpanEntries(spans[1..])
  }

  function Keys(es: seq<Entry>): set<string> {
    if es == [] then {} else {Key(es[0])} + Keys(es[1..])
  }

  /** The entries whose text was not there before. */
  function Kept(es: seq<Entry>, seen: set<string>): seq<Entry>
    decreases |es|
  {
    if es == [] then []
    else if Key(es[0]) in seen then Kept(es[1..], seen)
    else [es[0]] + Kept(es[1..], seen + {Key(es[0])})
  }

  function Bucket(es: seq<Entry>, category: string): Lines {
    if es == [] then [] else (if es[0].category == category then [es[0].line] else []) + Bucket(es[1..], category)
  }

  /** The entries that the notes of (floor, target] are made of. */
  function Merged(spans: seq<Span>, floor: Option<string>, target: string): seq<Entry> {
    Kept(SpanEntries(Selected(spans, floor, target)), {})
  }

  // ----------------------------------------------------- each line exactly once

  lemma {:induction false} KeptMeans(es: seq<Entry>, seen: set<string>)
    ensures forall k :: k in Kept(es, seen) ==> Key(k) !in seen && Key(k) in Keys(es)
    ensures forall i, j :: 0 <= i < j < |Kept(es, seen)| ==> Key(Kept(es, seen)[i]) != Key(Kept(es, seen)[j])
    ensures Keys(Kept(es, seen)) == Keys(es) - seen
    decreases |es|
  {
    hide Key;
    if es != [] {
      if Key(es[0]) in seen {
        KeptMeans(es[1..], seen);
      } else {
        KeptMeans(es[1..], seen + {Key(es[0])});
      }
    }
  }

  lemma {:induction false} KeptFirst(es: seq<Entry>, seen: set<string>, e: Entry)
    ensures e in Kept(es, seen) <==> Key(e) !in seen && exists i :: FirstAt(es, i, e)
    decreases |es|
  {
    hide Key;
    if es != [] {
      var next := if Key(es[0]) in seen then seen else seen + {Key(es[0])};
      KeptFirst(es[1..], next, e);
      if i :| FirstAt(es, i, e) {
        if i > 0 {
          assert FirstAt(es[1..], i - 1, e);
        }
      }
      if i :| FirstAt(es[1..], i, e) {
        if Key(es[0]) != Key(e) {
          assert FirstAt(es, i + 1, e);
        }
      }
      if e == es[0] {
        assert FirstAt(es, 0, e);
      }
    }
  }

  /** `e` is the i-th entry and no earlier one has its text. */
  predicate FirstAt(es: seq<Entry>, i: int, e: Entry) {
    0 <= i < |es| && es[i] == e && forall j :: 0 <= j < i ==> Key(es[j]) != Key(e)
  }

  /** Every nonblank categorized line of a version in range is kept exactly once: among the lines
      with its text, the one of the newest version, under the category it has there. */
  lemma EachLineOnce(spans: seq<Span>, floor: Option<string>, target: string)
    ensures var es, kept := SpanEntries(Selected(spans, floor, target)), Merged(spans, floor, target);
      && (forall e :: e in kept <==> IsFirst(es, e))
      && (forall i, j :: 0 <= i < j < |kept| ==> Key(kept[i]) != Key(kept[j]))
      && Keys(kept) == Keys(es)
  {
    hide Key, Selected, SpanEntries, FirstAt;
    var es := SpanEntries(Selected(spans, floor, target));
    KeptMeans(es, {});
    assert Keys(es) - {} == Keys(es);
    forall e ensures e in Kept(es, {}) <==> IsFirst(es, e) {
      KeptFirst(es, {}, e);
    }
  }

  ghost predicate IsFirst(es: seq<Entry>, e: Entry) {
    exists i :: FirstAt(es, i, e)
  }

  // --------------------------------------------------------- newest comes first

  ghost predicate CanonicalSpan(s: Span) {
    CanonicalVersion(s.version)
  }

  lemma PrecedesIsOrder(a: Triple, b: Triple, c: Triple)
    ensures Precedes(a, b) && Precedes(b, c) ==> Precedes(a, c)
    ensures !(Precedes(a, b) && Precedes(b, a))
    ensures Precedes(a, b) || Precedes(b, a) || a == b
  {}

  lemma NewestFirstConsistent()
    ensures Consistent(NewestFirst, CanonicalSpan)
  {
    hide CanonicalVersion, CompareVersions, Numbers, Precedes;
    forall x, y | CanonicalSpan(x) && CanonicalSpan(y) ensures NewestFirst(x, y) <= 0 || NewestFirst(y, x) <= 0 {
      CompareIsPrecedence(x.version, y.version);
      CompareIsPrecedence(y.version, x.version);
      PrecedesIsOrder(Numbers(x.version), Numbers(y.version), Numbers(x.version));
    }
    forall x, y, z | CanonicalSpan(x) && CanonicalSpan(y) && CanonicalSpan(z) && NewestFirst(x, y) <= 0 && NewestFirst(y, z) <= 0
      ensures NewestFirst(x, z) <= 0
    {
      NewestChain(x.version, y.version, z.version);
    }
  }

  lemma NewestChain(x: string, y: string, z: string)
    requires CanonicalVersion(x) && CanonicalVersion(y) && CanonicalVersion(z)
    requires CompareVersions(y, x) <= 0 && CompareVersions(z, y) <= 0
    ensures CompareVersions(z, x) <= 0
  {
    hide CanonicalVersion, CompareVersions, Numbers;
    CompareIsPrecedence(y, x);
    CompareIsPrecedence(z, y);
    CompareIsPrecedence(z, x);
  }

  lemma {:induction false} ChooseMembers(spans: seq<Span>, floor: Option<string>, target: string)
    ensures forall s :: s in Choose(spans, floor, target) <==> s in spans && InRange(floor, target, s)
  {
    hide InRange;
    if spans != [] {
      ChooseMembers(spans[1..], floor, target);
    }
  }

  /** The selected versions are those in range, in descending precedence. */
  lemma SelectedIsDescending(spans: seq<Span>, floor: Option<string>, target: string)
    requires Every(CanonicalSpan, spans)
    ensures forall s :: s in Selected(spans, floor, target) <==> s in spans && InRange(floor, target, s)
    ensures forall i, j :: 0 <= i < j < |Selected(spans, floor, target)| ==>
      !Precedes(Numbers(Selected(spans, floor, target)[i].version), Numbers(Selected(spans, floor, target)[j].version))
  {
    hide InRange, CompareVersions, Precedes, Numbers, CanonicalVersion;
    var chosen, sel := Choose(spans, floor, target), Selected(spans, floor, target);
    ChooseMembers(spans, floor, target);
    SameMembers(sel, chosen);
    EveryMember(CanonicalSpan, spans, chosen);
    NewestFirstConsistent();
    SortAscending(NewestFirst, CanonicalSpan, chosen);
    EveryMember(CanonicalSpan, spans, sel);
    forall i, j | 0 <= i < j < |sel| ensures !Precedes(Numbers(sel[i].version), Numbers(sel[j].version)) {
      assert NewestFirst(sel[i], sel[j]) <= 0;
      assert CanonicalSpan(sel[i]) && CanonicalSpan(sel[j]);
      CompareIsPrecedence(sel[j].version, sel[i].version);
    }
  }

  // ------------------------------------------------------------- composition

  ghost predicate Before<T>(cmp: (T, T) -> int, x: T, y: T) {
    cmp(x, y) <= 0 && cmp(y, x) > 0
  }

  lemma {:induction false} InsertInFront<T>(cmp: (T, T) -> int, x: T, a: seq<T>, b: seq<T>)
    requires forall j :: 0 <= j < |b| ==> Before(cmp, x, b[j])
    ensures InsertBy(cmp, x, a + b) == InsertBy(cmp, x, a) + b
  {
    if a == [] {
      assert a + b == b;
      assert b != [] ==> Before(cmp, x, b[0]);
      assert [x] + b == InsertBy(cmp, x, b);
    } else {
      assert (a + b)[1..] == a[1..] + b;
      InsertInFront(cmp, x, a[1..], b);
    }
  }

  lemma {:induction false} InsertBehind<T>(cmp: (T, T) -> int, x: T, a: seq<T>, b: seq<T>)
    requires forall i :: 0 <= i < |a| ==> Before(cmp, a[i], x)
    ensures InsertBy(cmp, x, a + b) == a + InsertBy(cmp, x, b)
  {
    if a == [] {
      assert a + b == b && [] + InsertBy(cmp, x, b) == InsertBy(cmp, x, b);
    } else {
      assert (a + b)[1..] == a[1..] + b;
      assert Before(cmp, a[0], x);
      InsertBehind(cmp, x, a[1..], b);
    }
  }

  /** Sorting two intermixed lists, all of one before all of the other, is sorting each. */
  lemma {:induction false} SortMixed(spans: seq<Span>, floor: Option<string>, mid: string, target: string)
    requires Every(CanonicalSpan, spans) && Bounds(floor, mid, target)
    ensures Selected(spans, floor, target) == Selected(spans, Some(mid), target) + Selected(spans, floor, mid)
  {
    hide CanonicalSpan, InRange, NewestFirst, Bounds, Choose, SortBy, InsertBy;
    if spans == [] {
      NothingSelected();
    } else {
      var s, rest := spans[0], spans[1..];
      SortMixed(rest, floor, mid, target);
      EveryParts(spans);
      RangeSplits(floor, mid, target, s);
      HiBeforeLo(rest, floor, mid, target, s);
      SelectStep(spans, floor, target);
      SelectStep(spans, Some(mid), target);
      SelectStep(spans, floor, mid);
      if InRange(Some(mid), target, s) {
        InsertInFront(NewestFirst, s, Selected(rest, Some(mid), target), Selected(rest, floor, mid));
      } else if InRange(floor, mid, s) {
        InsertBehind(NewestFirst, s, Selected(rest, Some(mid), target), Selected(rest, floor, mid));
      }
    }
  }

  lemma NothingSelected()
    ensures forall f, t :: Selected([], f, t) == []
  {}

  lemma EveryParts(spans: seq<Span>)
    requires Every(CanonicalSpan, spans) && spans != []
    ensures CanonicalSpan(spans[0]) && Every(CanonicalSpan, spans[1..])
  {
    hide CanonicalSpan;
  }

  lemma SelectStep(spans: seq<Span>, floor: Option<string>, target: string)
    requires spans != []
    ensures Selected(spans, floor, target) == if InRange(floor, target, spans[0])
      then InsertBy(NewestFirst, spans[0], Selected(spans[1..], floor, target)) else Selected(spans[1..], floor, target)
  {
    hide InRange, NewestFirst, InsertBy;
    var rest := Choose(spans[1..], floor, target);
    assert ([spans[0]] + rest)[1..] == rest;
    assert [] + rest == rest;
  }

  /** floor < mid < target, without leading zeros. */
  ghost predicate Bounds(floor: Option<string>, mid: string, target: string) {
    && floor.Some? && CanonicalVersion(floor.value) && CanonicalVersion(mid) && CanonicalVersion(target)
    && Precedes(Numbers(floor.value), Numbers(mid)) && Precedes(Numbers(mid), Numbers(target))
  }

  lemma RangeSplits(floor: Option<string>, mid: string, target: string, s: Span)
    requires Bounds(floor, mid, target) && CanonicalSpan(s)
    ensures InRange(floor, target, s) <==> InRange(Some(mid), target, s) || InRange(floor, mid, s)
    ensures !(InRange(Some(mid), target, s) && InRange(floor, mid, s))
  {
    hide CanonicalVersion, CompareVersions, Numbers;
    CompareIsPrecedence(s.version, floor.value);
    CompareIsPrecedence(s.version, mid);
    CompareIsPrecedence(s.version, target);
  }

  lemma RangeOrder(floor: Option<string>, mid: string, target: string, hi: Span, lo: Span)
    requires Bounds(floor, mid, target) && CanonicalSpan(hi) && CanonicalSpan(lo)
    requires InRange(Some(mid), target, hi) && InRange(floor, mid, lo)
    ensures Before(NewestFirst, hi, lo)
  {
    hide CanonicalVersion, CompareVersions, Numbers;
    CompareIsPrecedence(hi.version, mid);
    CompareIsPrecedence(lo.version, mid);
    CompareIsPrecedence(lo.version, hi.version);
    CompareIsPrecedence(hi.version, lo.version);
  }

  lemma HiBeforeLo(spans: seq<Span>, floor: Option<string>, mid: string, target: string, s: Span)
    requires Every(CanonicalSpan, spans) && CanonicalSpan(s) && Bounds(floor, mid, target)
    ensures InRange(Some(mid), target, s) ==> forall j :: 0 <= j < |Selected(spans, floor, mid)| ==> Before(NewestFirst, s, Selected(spans, floor, mid)[j])
    ensures InRange(floor, mid, s) ==> forall i :: 0 <= i < |Selected(spans, Some(mid), target)| ==> Before(NewestFirst, Selected(spans, Some(mid), target)[i], s)
  {
    hide CanonicalSpan, InRange, NewestFirst, Bounds, Before;
    var hi, lo := Selected(spans, Some(mid), target), Selected(spans, floor, mid);
    ChooseMembers(spans, Some(mid), target);
    ChooseMembers(spans, floor, mid);
    SameMembers(hi, Choose(spans, Some(mid), target));
    SameMembers(lo, Choose(spans, floor, mid));
    EveryMember(CanonicalSpan, spans, hi);
    EveryMember(CanonicalSpan, spans, lo);
    if InRange(Some(mid), target, s) {
      forall j | 0 <= j < |lo| ensures Before(NewestFirst, s, lo[j]) {
        assert lo[j] in lo && CanonicalSpan(lo[j]);
        RangeOrder(floor, mid, target, s, lo[j]);
      }
    }
    if InRange(floor, mid, s) {
      forall i | 0 <= i < |hi| ensures Before(NewestFirst, hi[i], s) {
        assert hi[i] in hi && CanonicalSpan(hi[i]);
        RangeOrder(floor, mid, target, hi[i], s);
      }
    }
  }

  lemma {:induction false} SpanEntriesAppend(a: seq<Span>, b: seq<Span>)
    ensures SpanEntries(a + b) == SpanEntries(a) + SpanEntries(b)
  {
    hide BodyEntries;
    if a == [] {
      assert a + b == b;
    } else {
      assert (a + b)[1..] == a[1..] + b;
      SpanEntriesAppend(a[1..], b);
    }
  }

  /** The entries whose text is not in `seen`. */
  function Unseen(es: seq<Entry>, seen: set<string>): seq<Entry> {
    if es == [] then [] else (if Key(es[0]) in seen then [] else [es[0]]) + Unseen(es[1..], seen)
  }

  lemma {:induction false} KeptAppend(a: seq<Entry>, b: seq<Entry>, seen: set<string>)
    ensures Kept(a + b, seen) == Kept(a, seen) + Kept(b, seen + Keys(a))
    decreases |a|
  {
    hide Key;
    if a == [] {
      assert a + b == b && seen + Keys(a) == seen;
    } else {
      assert (a + b)[1..] == a[1..] + b;
      if Key(a[0]) in seen {
        KeptAppend(a[1..], b, seen);
        assert seen + Keys(a[1..]) == seen + Keys(a);
      } else {
        KeptAppend(a[1..], b, seen + {Key(a[0])});
        assert seen + {Key(a[0])} + Keys(a[1..]) == seen + Keys(a);
      }
    }
  }

  lemma {:induction false} KeptSeen(es: seq<Entry>, seen: set<string>, more: set<string>)
    ensures Kept(es, seen + more) == Unseen(Kept(es, seen), more)
    decreases |es|
  {
    hide Key;
    if es != [] {
      var k := Key(es[0]);
      if k in seen {
        KeptSeen(es[1..], seen, more);
      } else {
        KeptSeen(es[1..], seen + {k}, more);
        var rest := Kept(es[1..], seen + {k});
        assert ([es[0]] + rest)[1..] == rest;
        if k in more {
          assert seen + {k} + more == seen + more;
          assert [] + Unseen(rest, more) == Unseen(rest, more);
        } else {
          assert seen + {k} + more == seen + more + {k};
        }
      }
    }
  }

  /** The notes of (floor, target] are those of (mid, target] followed by what is new in those of
      (floor, mid]; so their texts are the union. */
  lemma MergingComposes(spans: seq<Span>, floor: Option<string>, mid: string, target: string)
    requires Every(CanonicalSpan, spans) && Bounds(floor, mid, target)
    ensures var newer, older := Merged(spans, Some(mid), target), Merged(spans, floor, mid);
      && Merged(spans, floor, target) == newer + Unseen(older, Keys(newer))
      && Keys(Merged(spans, floor, target)) == Keys(newer) + Keys(older)
  {
    hide CanonicalSpan, Bounds, Selected, SpanEntries;
    SortMixed(spans, floor, mid, target);
    var hi, lo := Selected(spans, Some(mid), target), Selected(spans, floor, mid);
    SpanEntriesAppend(hi, lo);
    var a, b := SpanEntries(hi), SpanEntries(lo);
    KeptAppend(a, b, {});
    KeptSeen(b, {}, Keys(a));
    KeptMeans(a, {});
    KeptMeans(b, {});
    KeptMeans(a + b, {});
    assert {} + Keys(a) == Keys(a);
    KeysAppend(a, b);
  }

  lemma {:induction false} KeysAppend(a: seq<Entry>, b: seq<Entry>)
    ensures Keys(a + b) == Keys(a) + Keys(b)
  {
    hide Key;
    if a == [] {
      assert a + b == b;
    } else {
      assert (a + b)[1..] == a[1..] + b;
      KeysAppend(a[1..], b);
    }
  }
}
