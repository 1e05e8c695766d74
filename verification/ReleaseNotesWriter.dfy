/** Writing the merged notes: the loops of `enumerateChangelogVersions` and `mergePackageSection`
    (scripts/ci-release-notes.ts:70-180). */
module ReleaseNotesWriter {
  import opened Basics
  import opened Lists
  import opened StableSort
  import opened ChangelogText
  import opened ReleaseNotes
  import Fix = ChangelogFix
  import Headings = ReleaseHeadings
  import Text

  // ------------------------------------------------------------ category order

  const CATEGORY_ORDER := Fix.ORDERED_TITLES

  /** Known categories in their fixed order, then the others as `collate` orders them. */
  function CompareCategories(collate: (string, string) -> int, a: string, b: string): int {
    var i, j := Fix.IndexOf(CATEGORY_ORDER, a), Fix.IndexOf(CATEGORY_ORDER, b);
    if i < |CATEGORY_ORDER| && j < |CATEGORY_ORDER| then i - j
    else if i < |CATEGORY_ORDER| then -1
    else if j < |CATEGORY_ORDER| then 1
    else collate(a, b)
  }

  function Comparator(collate: (string, string) -> int): (string, string) -> int {
    (a: string, b: string) => CompareCategories(collate, a, b)
  }

  ghost predicate AnyString(s: string) {
    true
  }

  lemma CategoriesConsistent(collate: (string, string) -> int)
    requires Consistent(collate, AnyString)
    ensures Consistent(Comparator(collate), AnyString)
  {
    hide Fix.IndexOf;
    var cmp := Comparator(collate);
    forall x, y, z | cmp(x, y) <= 0 && cmp(y, z) <= 0 ensures cmp(x, z) <= 0 {
      assert AnyString(x) && AnyString(y) && AnyString(z);
    }
    forall x, y ensures cmp(x, y) <= 0 || cmp(y, x) <= 0 {
      assert AnyString(x) && AnyString(y);
    }
  }

  // ----------------------------------------------------------------- printing

  /** The notes under some categories, empty ones left out. */
  function RenderNotes(cats: seq<string>, es: seq<Entry>): Lines {
    if cats == [] then []
    else
      var bucket, rest := Bucket(es, cats[0]), RenderNotes(cats[1..], es);
      if bucket == [] then rest
      else ["### " + cats[0], ""] + bucket + (if rest == [] then [] else [""] + rest)
  }

  /** `text` prints every entry under its category, each category once, in canonical order. */
  ghost predicate Prints(collate: (string, string) -> int, es: seq<Entry>, text: string) {
    exists cats: seq<string> ::
      && Distinct(cats) && (forall e :: e in es ==> e.category in cats)
      && (Consistent(collate, AnyString) ==> Ascending(Comparator(collate), cats))
      && text == Join(RenderNotes(cats, es))
  }

  // ------------------------------------------------------------------ merging

  datatype Notes = Notes(cats: seq<string>, buckets: map<string, Lines>, seen: set<string>)

  function BucketOf(n: Notes, cat: string): Lines {
    if cat in n.buckets then n.buckets[cat] else []
  }

  /** The notes hold the entries `done`, each text once. */
  ghost predicate Holds(n: Notes, done: seq<Entry>) {
    && n.seen == Keys(done)
    && (forall cat :: BucketOf(n, cat) == Bucket(Kept(done, {}), cat))
    && Distinct(n.cats) && (forall cat :: cat in n.cats <==> cat in n.buckets)
  }

  lemma {:induction false} BucketAppend(a: seq<Entry>, b: seq<Entry>, cat: string)
    ensures Bucket(a + b, cat) == Bucket(a, cat) + Bucket(b, cat)
  {
    if a == [] {
      assert a + b == b;
    } else {
      assert (a + b)[1..] == a[1..] + b;
      BucketAppend(a[1..], b, cat);
    }
  }

  lemma AddEntry(done: seq<Entry>, e: Entry)
    ensures Keys(done + [e]) == Keys(done) + {Key(e)}
    ensures Kept(done + [e], {}) == Kept(done, {}) + if Key(e) in Keys(done) then [] else [e]
  {
    hide Key;
    KeysAppend(done, [e]);
    KeptAppend(done, [e], {});
    assert {} + Keys(done) == Keys(done);
    assert [e][1..] == [];
  }

  lemma BucketOne(e: Entry, cat: string)
    ensures Bucket([e], cat) == if e.category == cat then [e.line] else []
  {
    assert [e][1..] == [];
  }

  /** Adding one line to a bucket. */
  lemma HoldsStep(n: Notes, done: seq<Entry>, e: Entry)
    requires Holds(n, done) && e.category in n.buckets
    ensures Holds(if Key(e) in n.seen then n else Notes(n.cats, n.buckets[e.category := n.buckets[e.category] + [e.line]], n.seen + {Key(e)}), done + [e])
  {
    hide Key, Keys, Kept, Bucket;
    AddEntry(done, e);
    var m := if Key(e) in n.seen then n else Notes(n.cats, n.buckets[e.category := n.buckets[e.category] + [e.line]], n.seen + {Key(e)});
    forall cat ensures BucketOf(m, cat) == Bucket(Kept(done + [e], {}), cat) {
      assert BucketOf(n, cat) == Bucket(Kept(done, {}), cat);
      BucketAppend(Kept(done, {}), [e], cat);
      BucketOne(e, cat);
      assert Kept(done, {}) + [] == Kept(done, {});
    }
  }

  lemma CategorizedStep(cat: string, buf: Lines, j: nat)
    requires j < |buf|
    ensures Categorized(cat, buf[..j + 1]) == Categorized(cat, buf[..j]) + if IsBlank(buf[j]) then [] else [Entry(cat, buf[j])]
  {
    hide IsBlank;
    assert buf[..j + 1] == buf[..j] + [buf[j]];
    CategorizedAppend(cat, buf[..j], [buf[j]]);
    assert [buf[j]][1..] == [];
  }

  lemma {:induction false} CategorizedAppend(cat: string, a: Lines, b: Lines)
    ensures Categorized(cat, a + b) == Categorized(cat, a) + Categorized(cat, b)
  {
    hide IsBlank;
    if a == [] {
      assert a + b == b;
    } else {
      assert (a + b)[1..] == a[1..] + b;
      CategorizedAppend(cat, a[1..], b);
    }
  }

  /** A bucket for the category, in first-seen order. */
  method Open(n: Notes, cat: string, ghost done: seq<Entry>) returns (m: Notes)
    requires Holds(n, done)
    ensures Holds(m, done) && cat in m.buckets
  {
    hide Keys, Kept, Bucket;
    m := n;
    if cat !in n.buckets {
      m := Notes(n.cats + [cat], n.buckets[cat := []], n.seen);
      assert BucketOf(n, cat) == Bucket(Kept(done, {}), cat);
      assert forall c :: BucketOf(m, c) == BucketOf(n, c);
    }
  }

  /** `flushCurrent` */
  method Flush(n: Notes, category: Option<string>, buf: Lines, ghost done: seq<Entry>) returns (m: Notes)
    requires Holds(n, done)
    ensures Holds(m, if category.None? then done else done + Categorized(category.value, buf))
  {
    hide Holds, Keys, Kept, IsBlank, Key;
    m := n;
    if category.None? || |buf| == 0 {
      assert done + [] == done;
      return;
    }
    var cat := category.value;
    m := Open(n, cat, done);
    assert done + [] == done && buf[..0] == [];
    for j := 0 to |buf|
      invariant Holds(m, done + Categorized(cat, buf[..j])) && cat in m.buckets
    {
      ghost var so := done + Categorized(cat, buf[..j]);
      ghost var e := Entry(cat, buf[j]);
      CategorizedStep(cat, buf, j);
      assert done + (Categorized(cat, buf[..j]) + [e]) == so + [e];
      assert done + (Categorized(cat, buf[..j]) + []) == so;
      var key := Text.Trim(buf[j]);
      KeyIs(e, key);
      if key == [] {
        continue;
      }
      HoldsStep(m, so, e);
      if key in m.seen {
        continue;
      }
      m := Notes(m.cats, m.buckets[cat := m.buckets[cat] + [buf[j]]], m.seen + {key});
    }
    assert buf[..|buf|] == buf;
  }

  lemma KeyIs(e: Entry, key: string)
    requires key == Text.Trim(e.line)
    ensures Key(e) == key && (IsBlank(e.line) <==> key == [])
  {}

  lemma BodyStep(body: Lines, j: nat, category: Option<string>)
    requires j < |body|
    ensures BodyEntries(body[j..], category) == (if CategoryOf(body[j]).Some? then BodyEntries(body[j + 1..], CategoryOf(body[j]))
      else (if category.None? then [] else Categorized(category.value, [body[j]])) + BodyEntries(body[j + 1..], category))
  {
    hide CategoryOf, Categorized;
    assert body[j..][1..] == body[j + 1..];
  }

  function Pending(category: Option<string>, buf: Lines): seq<Entry> {
    if category.None? then [] else Categorized(category.value, buf)
  }

  /** One version: its lines, flushed whenever a category ends. */
  method MergeBody(n: Notes, body: Lines, ghost done: seq<Entry>) returns (m: Notes)
    requires Holds(n, done)
    ensures Holds(m, done + BodyEntries(body, None))
  {
    hide Holds, CategoryOf, Categorized, BodyEntries;
    m := n;
    var category: Option<string>, buf: Lines := None, [];
    ghost var flushed := done;
    assert body[0..] == body && [] + BodyEntries(body, None) == BodyEntries(body, None);
    for j := 0 to |body|
      invariant Holds(m, flushed)
      invariant flushed + (Pending(category, buf) + BodyEntries(body[j..], category)) == done + BodyEntries(body, None)
    {
      BodyStep(body, j, category);
      var heading := CategoryOf(body[j]);
      if heading.Some? {
        ghost var before := flushed + Pending(category, buf);
        FlushedIs(flushed, category, buf);
        m := Flush(m, category, buf, flushed);
        flushed := before;
        Regroup(flushed, category, buf, heading, BodyEntries(body[j + 1..], heading));
        category, buf := heading, [];
        continue;
      }
      if category.None? {
        continue;
      }
      PendingStep(category, buf, body[j], BodyEntries(body[j + 1..], category));
      buf := buf + [body[j]];
    }
    BodyEnd(category);
    assert body[|body|..] == [] && Pending(category, buf) + [] == Pending(category, buf);
    FlushedIs(flushed, category, buf);
    m := Flush(m, category, buf, flushed);
  }

  lemma BodyEnd(category: Option<string>)
    ensures BodyEntries([], category) == []
  {}

  lemma FlushedIs(done: seq<Entry>, category: Option<string>, buf: Lines)
    ensures (if category.None? then done else done + Categorized(category.value, buf)) == done + Pending(category, buf)
  {
    assert done + [] == done;
  }

  lemma Regroup(flushed: seq<Entry>, category: Option<string>, buf: Lines, heading: Option<string>, rest: seq<Entry>)
    requires heading.Some?
    ensures Pending(heading, []) == [] && flushed + ([] + rest) == flushed + rest
  {
    assert [] + rest == rest;
  }

  lemma PendingStep(category: Option<string>, buf: Lines, line: string, rest: seq<Entry>)
    requires category.Some?
    ensures Pending(category, buf + [line]) + rest == Pending(category, buf) + (Categorized(category.value, [line]) + rest)
  {
    hide Categorized;
    CategorizedAppend(category.value, buf, [line]);
  }

  method MergeSpans(spans: seq<Span>) returns (n: Notes)
    ensures Holds(n, SpanEntries(spans))
  {
    hide BodyEntries;
    n := Notes([], map[], {});
    NothingHeld();
    hide Holds;
    assert spans[..0] == [];
    for i := 0 to |spans|
      invariant Holds(n, SpanEntries(spans[..i]))
    {
      assert spans[..i + 1] == spans[..i] + [spans[i]];
      SpanEntriesAppend(spans[..i], [spans[i]]);
      assert [spans[i]][1..] == [] && BodyEntries(spans[i].body, None) + [] == BodyEntries(spans[i].body, None);
      n := MergeBody(n, spans[i].body, SpanEntries(spans[..i]));
    }
    assert spans[..|spans|] == spans;
  }

  lemma NothingHeld()
    ensures Holds(Notes([], map[], {}), [])
  {}

  // ------------------------------------------------------------------ writing

  ghost predicate Visible(ls: Lines) {
    Lacks(IsBlank, ls)
  }

  /** Runs of blank lines as single ones. */
  function Squeeze(ls: Lines, prevBlank: bool): Lines {
    if ls == [] then []
    else if IsBlank(ls[0]) && prevBlank then Squeeze(ls[1..], true)
    else [ls[0]] + Squeeze(ls[1..], IsBlank(ls[0]))
  }

  /** Collapses runs of blank lines and drops those at the end. */
  method Collapse(bucket: Lines) returns (collapsed: Lines)
    ensures collapsed == DropWhile(IsBlank, Squeeze(bucket, false))
  {
    hide IsBlank;
    collapsed := [];
    var prevBlank := false;
    for j := 0 to |bucket|
      invariant collapsed + Squeeze(bucket[j..], prevBlank) == Squeeze(bucket, false)
    {
      assert bucket[j..][1..] == bucket[j + 1..];
      var blank := IsBlank(bucket[j]);
      if blank && prevBlank {
        continue;
      }
      assert collapsed + [bucket[j]] + Squeeze(bucket[j + 1..], blank) == collapsed + ([bucket[j]] + Squeeze(bucket[j + 1..], blank));
      collapsed := collapsed + [bucket[j]];
      prevBlank := blank;
    }
    assert collapsed + [] == collapsed;
    while |collapsed| > 0 && IsBlank(collapsed[|collapsed| - 1])
      invariant DropWhile(IsBlank, collapsed) == DropWhile(IsBlank, Squeeze(bucket, false))
      decreases |collapsed|
    {
      collapsed := collapsed[..|collapsed| - 1];
    }
  }

  /** A bucket holds no blank line, so collapsing leaves it as it is. */
  lemma VisibleStays(bucket: Lines)
    requires Visible(bucket)
    ensures DropWhile(IsBlank, Squeeze(bucket, false)) == bucket
  {
    SqueezeVisible(bucket);
    VisibleLast(bucket);
  }

  lemma {:induction false} SqueezeVisible(bucket: Lines)
    requires Visible(bucket)
    ensures Squeeze(bucket, false) == bucket
  {
    hide IsBlank;
    if bucket != [] {
      SqueezeVisible(bucket[1..]);
    }
  }

  /** The output before the trailing empty lines are popped. */
  function Blocks(cats: seq<string>, es: seq<Entry>): Lines {
    if cats == [] then []
    else
      var bucket := Bucket(es, cats[0]);
      (if bucket == [] then [] else ["### " + cats[0], ""] + bucket + [""]) + Blocks(cats[1..], es)
  }

  lemma {:induction false} BlocksAreNotes(cats: seq<string>, es: seq<Entry>)
    ensures Blocks(cats, es) == if RenderNotes(cats, es) == [] then [] else RenderNotes(cats, es) + [""]
  {
    hide Bucket;
    if cats != [] {
      BlocksAreNotes(cats[1..], es);
      var bucket, rest := Bucket(es, cats[0]), RenderNotes(cats[1..], es);
      assert [] + Blocks(cats[1..], es) == Blocks(cats[1..], es);
      if bucket != [] {
        var head := ["### " + cats[0], ""] + bucket;
        assert rest == [] ==> head + [""] + [] == head + [] + [""];
        assert rest != [] ==> head + [""] + (rest + [""]) == head + ([""] + rest) + [""];
      }
    }
  }

  ghost predicate LastVisible(ls: Lines) {
    ls != [] ==> !IsBlank(ls[|ls| - 1])
  }

  lemma LastOf(head: Lines, tail: Lines)
    requires tail != [] && LastVisible(tail)
    ensures LastVisible(head + tail)
  {
    hide IsBlank;
  }

  lemma VisibleLast(ls: Lines)
    requires Visible(ls)
    ensures LastVisible(ls)
  {
    hide IsBlank;
  }

  /** The notes end in a visible line. */
  lemma {:induction false} NotesEndVisible(cats: seq<string>, es: seq<Entry>)
    requires forall cat :: Visible(Bucket(es, cat))
    ensures LastVisible(RenderNotes(cats, es))
  {
    hide Bucket, IsBlank, Visible, LastVisible;
    if cats == [] {
      NothingVisible();
    } else {
      NotesEndVisible(cats[1..], es);
      var bucket, rest := Bucket(es, cats[0]), RenderNotes(cats[1..], es);
      VisibleLast(bucket);
      if bucket != [] {
        LastOf(["### " + cats[0], ""], bucket);
        var head := ["### " + cats[0], ""] + bucket;
        assert head + [] == head;
        if rest != [] {
          LastOf(head + [""], rest);
          assert head + [""] + rest == head + ([""] + rest);
        }
      }
    }
  }

  lemma NothingVisible()
    ensures LastVisible([])
  {}

  lemma {:induction false} CategorizedVisible(cat: string, buf: Lines)
    ensures forall i :: 0 <= i < |Categorized(cat, buf)| ==> !IsBlank(Categorized(cat, buf)[i].line)
  {
    hide IsBlank;
    if buf != [] {
      CategorizedVisible(cat, buf[1..]);
    }
  }

  ghost predicate AllVisible(es: seq<Entry>) {
    forall i :: 0 <= i < |es| ==> !IsBlank(es[i].line)
  }

  lemma {:induction false} BodyVisible(body: Lines, category: Option<string>)
    ensures AllVisible(BodyEntries(body, category))
    decreases |body|
  {
    hide IsBlank, CategoryOf, Categorized;
    if body != [] {
      BodyVisible(body[1..], CategoryOf(body[0]));
      BodyVisible(body[1..], category);
      if category.Some? {
        CategorizedVisible(category.value, [body[0]]);
      }
    }
  }

  lemma {:induction false} SpansVisible(spans: seq<Span>)
    ensures AllVisible(SpanEntries(spans))
  {
    hide IsBlank, BodyEntries;
    if spans != [] {
      BodyVisible(spans[0].body, None);
      SpansVisible(spans[1..]);
    }
  }

  lemma {:induction false} KeptVisible(es: seq<Entry>, seen: set<string>)
    requires AllVisible(es)
    ensures AllVisible(Kept(es, seen))
    decreases |es|
  {
    hide IsBlank, Key;
    if es != [] {
      KeptVisible(es[1..], if Key(es[0]) in seen then seen else seen + {Key(es[0])});
    }
  }

  lemma {:induction false} BucketVisible(es: seq<Entry>, cat: string)
    requires AllVisible(es)
    ensures Visible(Bucket(es, cat))
  {
    hide IsBlank;
    if es != [] {
      BucketVisible(es[1..], cat);
    }
  }

  lemma {:induction false} BucketCovers(es: seq<Entry>, e: Entry)
    requires e in es
    ensures Bucket(es, e.category) != []
  {
    if e != es[0] {
      BucketCovers(es[1..], e);
    }
  }

  lemma BlocksStep(cats: seq<string>, es: seq<Entry>, i: nat)
    requires i < |cats|
    ensures Blocks(cats[..i + 1], es) == Blocks(cats[..i], es) + (if Bucket(es, cats[i]) == [] then [] else ["### " + cats[i], ""] + Bucket(es, cats[i]) + [""])
  {
    hide Bucket;
    assert cats[..i + 1] == cats[..i] + [cats[i]];
    BlocksAppend(cats[..i], [cats[i]], es);
    assert [cats[i]][1..] == [];
  }

  lemma {:induction false} BlocksAppend(a: seq<string>, b: seq<string>, es: seq<Entry>)
    ensures Blocks(a + b, es) == Blocks(a, es) + Blocks(b, es)
  {
    hide Bucket;
    if a == [] {
      assert a + b == b;
    } else {
      assert (a + b)[1..] == a[1..] + b;
      BlocksAppend(a[1..], b, es);
    }
  }

  /** The output loops: one block for each category that has lines, trailing empty lines popped. */
  method WriteNotes(n: Notes, cats: seq<string>, ghost es: seq<Entry>) returns (text: string)
    requires forall cat :: BucketOf(n, cat) == Bucket(es, cat) && Visible(Bucket(es, cat))
    ensures text == Join(RenderNotes(cats, es))
  {
    hide Bucket, Visible, IsBlank, Squeeze, DropWhile;
    var output: Lines := [];
    assert cats[..0] == [];
    for i := 0 to |cats|
      invariant output == Blocks(cats[..i], es)
    {
      BlocksStep(cats, es, i);
      assert BucketOf(n, cats[i]) == Bucket(es, cats[i]);
      var collapsed := Collapse(BucketOf(n, cats[i]));
      VisibleStays(Bucket(es, cats[i]));
      if |collapsed| == 0 {
        assert output + [] == output;
        continue;
      }
      output := output + (["### " + cats[i], ""] + collapsed + [""]);
    }
    assert cats[..|cats|] == cats;
    BlocksAreNotes(cats, es);
    NotesEndVisible(cats, es);
    ghost var notes := RenderNotes(cats, es);
    EmptyLineIsBlank();
    while |output| > 0 && output[|output| - 1] == ""
      invariant output == notes || (notes != [] && output == notes + [""])
    {
      EndNotEmpty(notes);
      output := output[..|output| - 1];
    }
    text := Join(output);
  }

  lemma EmptyLineIsBlank()
    ensures IsBlank("")
  {}

  lemma EndNotEmpty(notes: Lines)
    requires LastVisible(notes)
    ensures notes != [] ==> notes[|notes| - 1] != ""
  {
    EmptyLineIsBlank();
  }

  // ------------------------------------------------------------ finding versions

  /** Where every heading is. */
  ghost predicate AreHeadings(idx: seq<nat>, lines: Lines, n: nat)
    requires n <= |lines|
  {
    && (forall k :: 0 <= k < |idx| ==> idx[k] < n && IsHeading(lines[idx[k]]))
    && (forall k, l :: 0 <= k < l < |idx| ==> idx[k] < idx[l])
    && (forall i: nat :: i < n && IsHeading(lines[i]) ==> i in idx)
  }

  method FindHeadings(lines: Lines) returns (idx: seq<nat>)
    ensures AreHeadings(idx, lines, |lines|)
  {
    hide IsHeading;
    idx := [];
    for i := 0 to |lines|
      invariant AreHeadings(idx, lines, i)
    {
      if IsHeading(lines[i]) {
        idx := idx + [i];
      }
    }
  }

  /** The first heading after the k-th, or the end. */
  method NextHeading(idx: seq<nat>, lines: Lines, k: nat) returns (end: nat)
    requires k < |idx| && AreHeadings(idx, lines, |lines|)
    ensures end == (if k + 1 < |idx| then idx[k + 1] else |lines|)
  {
    hide IsHeading;
    var t := 0;
    while t < |idx| && idx[t] <= idx[k]
      invariant 0 <= t <= |idx| && t <= k + 1
    {
      t := t + 1;
    }
    end := if t < |idx| then idx[t] else |lines|;
  }

  /** Between two headings there is none. */
  lemma Gap(idx: seq<nat>, lines: Lines, k: nat)
    requires k <= |idx| && AreHeadings(idx, lines, |lines|)
    ensures var lo, hi := if k == 0 then 0 else idx[k - 1] + 1, if k < |idx| then idx[k] else |lines|;
      lo <= hi <= |lines| && Lacks(IsHeading, lines[lo..hi])
  {
    hide IsHeading;
    var lo, hi := if k == 0 then 0 else idx[k - 1] + 1, if k < |idx| then idx[k] else |lines|;
    forall i | 0 <= i < hi - lo ensures !IsHeading(lines[lo..hi][i]) {
      forall l | 0 <= l < |idx| ensures idx[l] != lo + i {
        assert l < k - 1 ==> idx[l] < idx[k - 1];
        assert k < l ==> idx[k] < idx[l];
      }
      assert lo + i !in idx;
    }
  }

  lemma {:induction false} SkipToHeading(lines: Lines, a: nat, b: nat)
    requires a <= b <= |lines| && Lacks(IsHeading, lines[a..b])
    ensures Spans(lines[a..]) == Spans(lines[b..])
    decreases b - a
  {
    hide BodyOf;
    if a < b {
      assert lines[a..b][0] == lines[a] && !IsHeading(lines[a]);
      assert lines[a + 1..b] == lines[a..b][1..];
      SkipToHeading(lines, a + 1, b);
      assert lines[a..][1..] == lines[a + 1..];
    }
  }

  lemma BodyUntil(lines: Lines, start: nat, end: nat)
    requires start < end <= |lines| && Lacks(IsHeading, lines[start + 1..end]) && (end < |lines| ==> IsHeading(lines[end]))
    ensures lines[start..][1..] == lines[start + 1..] && BodyOf(lines[start + 1..]) == lines[start + 1..end]
  {
    hide IsHeading, Lacks;
    assert lines[start + 1..] == lines[start + 1..end] + lines[end..];
    AheadIs(IsHeading, lines[start + 1..end], lines[end..]);
  }

  /** `enumerateChangelogVersions` */
  method EnumerateVersions(lines: Lines) returns (spans: seq<Span>)
    ensures spans == Spans(lines) && Headings.SpansAt(lines, Headings.Openings(lines), spans)
  {
    hide IsHeading, HeadingVersion, BodyOf, Lacks, Headings.SpansAt, Headings.Openings;
    Headings.SpansAreOpened(lines);
    var idx := FindHeadings(lines);
    spans := [];
    Gap(idx, lines, 0);
    SkipToHeading(lines, 0, if |idx| > 0 then idx[0] else |lines|);
    assert lines[0..] == lines;
    for k := 0 to |idx|
      invariant spans + Spans(lines[if k < |idx| then idx[k] else |lines|..]) == Spans(lines)
    {
      var start := idx[k];
      var end := NextHeading(idx, lines, k);
      Gap(idx, lines, k + 1);
      BodyUntil(lines, start, end);
      SkipToHeading(lines, start + 1, end);
      var m := HeadingVersion(lines[start]);
      SpansStep(lines, start, spans);
      if m.None? {
        continue;
      }
      spans := spans + [Span(m.value, lines[start + 1..end])];
    }
    assert lines[|lines|..] == [] && spans + [] == spans;
  }

  lemma SpansStep(lines: Lines, i: nat, before: seq<Span>)
    requires i < |lines|
    ensures before + Spans(lines[i..]) == (if HeadingVersion(lines[i]).Some?
      then before + [Span(HeadingVersion(lines[i]).value, BodyOf(lines[i + 1..]))] else before) + Spans(lines[i + 1..])
  {
    hide HeadingVersion, BodyOf;
    assert lines[i..][1..] == lines[i + 1..];
    assert [] + Spans(lines[i + 1..]) == Spans(lines[i + 1..]);
  }

  /** `mergePackageSection` */
  method MergePackageSection(content: string, floor: Option<string>, target: string, collate: (string, string) -> int) returns (text: string)
    ensures Prints(collate, Merged(Spans(Split(content)), floor, target), text)
  {
    hide Split, Selected, SpanEntries, Kept, Bucket, Visible, AllVisible, Comparator, Prints, Holds;
    var spans := EnumerateVersions(Split(content));
    var selected := Selected(spans, floor, target);
    ghost var done := SpanEntries(selected);
    var n := MergeSpans(selected);
    SpansVisible(selected);
    KeptVisible(done, {});
    HeldBuckets(n, done);
    var cats := SortBy(Comparator(collate), n.cats);
    text := WriteNotes(n, cats, Kept(done, {}));
    Printed(collate, n, done, text);
  }

  lemma HeldBuckets(n: Notes, done: seq<Entry>)
    requires Holds(n, done) && AllVisible(Kept(done, {}))
    ensures forall cat :: BucketOf(n, cat) == Bucket(Kept(done, {}), cat) && Visible(Bucket(Kept(done, {}), cat))
  {
    hide Bucket, Kept, Visible, AllVisible, Keys;
    forall cat ensures BucketOf(n, cat) == Bucket(Kept(done, {}), cat) && Visible(Bucket(Kept(done, {}), cat)) {
      BucketVisible(Kept(done, {}), cat);
    }
  }

  lemma Printed(collate: (string, string) -> int, n: Notes, done: seq<Entry>, text: string)
    requires Holds(n, done) && text == Join(RenderNotes(SortBy(Comparator(collate), n.cats), Kept(done, {})))
    ensures Prints(collate, Kept(done, {}), text)
  {
    hide Key, Bucket, RenderNotes, Comparator, Consistent, Kept;
    var cats, es := SortBy(Comparator(collate), n.cats), Kept(done, {});
    SameMembers(cats, n.cats);
    DistinctPermuted(n.cats, cats);
    forall e | e in es ensures e.category in cats {
      BucketCovers(es, e);
      assert BucketOf(n, e.category) == Bucket(es, e.category);
    }
    if Consistent(collate, AnyString) {
      CategoriesConsistent(collate);
      EveryString(n.cats);
      SortAscending(Comparator(collate), AnyString, n.cats);
    }
  }

  lemma EveryString(ss: seq<string>)
    ensures Every(AnyString, ss)
  {}
}
