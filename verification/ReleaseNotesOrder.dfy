/** The merged notes as a reader finds them: categories in order, and every line back under its
    category (scripts/ci-release-notes.ts:97-180). */
module ReleaseNotesOrder {
  import opened Basics
  import opened Lists
  import opened StableSort
  import opened ChangelogText
  import opened ReleaseNotes
  import opened ReleaseNotesWriter
  import Fix = ChangelogFix
  import Headings = ReleaseHeadings
  import Order = ChangelogOrder
  import Text

  // ------------------------------------------------------------ category order

  /** The known categories come in their fixed order, all others after them as they collate. */
  lemma CategoriesInOrder(collate: (string, string) -> int, cats: seq<string>, i: nat, j: nat)
    requires Ascending(Comparator(collate), cats) && i < j < |cats|
    ensures Order.Rank(cats[i]) <= Order.Rank(cats[j])
    ensures Order.Rank(cats[i]) == 5 ==> collate(cats[i], cats[j]) <= 0
  {
    hide Order.Rank, Fix.IndexOf;
    assert Comparator(collate)(cats[i], cats[j]) <= 0;
    Order.RankIs(cats[i]);
    Order.RankIs(cats[j]);
    RankBound(cats[i]);
    RankBound(cats[j]);
  }

  lemma RankBound(title: string)
    ensures Order.Rank(title) <= 5
  {}

  // --------------------------------------------------------------- reading back

  predicate ReadableName(cat: string) {
    CategoryOf("### " + cat) == Some(cat) && '\n' !in cat
  }

  /** An entry as a changelog's body gives it. */
  predicate Printable(e: Entry) {
    !IsBlank(e.line) && CategoryOf(e.line).None? && '\n' !in e.line && ReadableName(e.category)
  }

  ghost predicate AllPrintable(es: seq<Entry>) {
    forall i :: 0 <= i < |es| ==> Printable(es[i])
  }

  /** The entries category by category. */
  function Grouped(cats: seq<string>, es: seq<Entry>): seq<Entry> {
    if cats == [] then [] else Categorized(cats[0], Bucket(es, cats[0])) + Grouped(cats[1..], es)
  }

  ghost predicate Plain(ls: Lines) {
    forall i :: 0 <= i < |ls| ==> CategoryOf(ls[i]).None?
  }

  lemma {:induction false} BucketPlain(es: seq<Entry>, cat: string)
    requires AllPrintable(es)
    ensures Plain(Bucket(es, cat)) && (Bucket(es, cat) != [] ==> ReadableName(cat))
    ensures forall i :: 0 <= i < |Bucket(es, cat)| ==> '\n' !in Bucket(es, cat)[i]
  {
    hide IsBlank, CategoryOf, ReadableName;
    if es != [] {
      assert Printable(es[0]);
      BucketPlain(es[1..], cat);
    }
  }

  /** Plain lines are entries of the category that is open. */
  lemma {:induction false} ReadPlain(ls: Lines, tail: Lines, cat: string)
    requires Plain(ls)
    ensures BodyEntries(ls + tail, Some(cat)) == Categorized(cat, ls) + BodyEntries(tail, Some(cat))
  {
    hide CategoryOf, Categorized;
    if ls == [] {
      assert ls + tail == tail;
      NothingCategorized(cat);
      assert [] + BodyEntries(tail, Some(cat)) == BodyEntries(tail, Some(cat));
    } else {
      assert (ls + tail)[0] == ls[0] && (ls + tail)[1..] == ls[1..] + tail;
      ReadPlain(ls[1..], tail, cat);
      assert ls == [ls[0]] + ls[1..];
      CategorizedAppend(cat, [ls[0]], ls[1..]);
    }
  }

  lemma NothingCategorized(cat: string)
    ensures Categorized(cat, []) == []
  {}

  lemma ReadHeading(cat: string, rest: Lines, before: Option<string>)
    requires ReadableName(cat)
    ensures BodyEntries(["### " + cat] + rest, before) == BodyEntries(rest, Some(cat))
  {
    hide CategoryOf;
    assert (["### " + cat] + rest)[1..] == rest;
  }

  lemma ReadEmpty(rest: Lines, cat: string)
    ensures BodyEntries([""] + rest, Some(cat)) == BodyEntries(rest, Some(cat))
  {
    assert ([""] + rest)[1..] == rest;
    assert CategoryOf("").None?;
    Headings.CategorizedOne(cat, "");
    EmptyLineIsBlank();
    hide CategoryOf, Categorized, IsBlank;
    assert [] + BodyEntries(rest, Some(cat)) == BodyEntries(rest, Some(cat));
  }

  /** Printed notes read back category by category. */
  lemma {:induction false} NotesReadGrouped(cats: seq<string>, es: seq<Entry>, before: Option<string>)
    requires AllPrintable(es)
    ensures BodyEntries(RenderNotes(cats, es), before) == Grouped(cats, es)
  {
    hide Bucket, CategoryOf, Categorized, BodyEntries, ReadableName, AllPrintable, Plain;
    if cats == [] {
      BodyEnd(before);
    } else {
      var cat, rest := cats[0], RenderNotes(cats[1..], es);
      var bucket := Bucket(es, cat);
      BucketPlain(es, cat);
      if bucket == [] {
        NotesReadGrouped(cats[1..], es, before);
        NothingCategorized(cat);
        assert [] + Grouped(cats[1..], es) == Grouped(cats[1..], es);
      } else {
        var tail := if rest == [] then [] else [""] + rest;
        NotesReadGrouped(cats[1..], es, Some(cat));
        assert RenderNotes(cats, es) == ["### " + cat] + ([""] + (bucket + tail));
        ReadHeading(cat, [""] + (bucket + tail), before);
        ReadEmpty(bucket + tail, cat);
        ReadPlain(bucket, tail, cat);
        if rest != [] { ReadEmpty(rest, cat); }
      }
    }
  }

  lemma {:induction false} GroupedAdd(cats: seq<string>, e: Entry, es: seq<Entry>)
    requires Distinct(cats) && !IsBlank(e.line)
    ensures multiset(Grouped(cats, [e] + es)) == multiset(Grouped(cats, es)) + (if e.category in cats then multiset{e} else multiset{})
  {
    hide IsBlank, Bucket, Categorized, Distinct;
    if cats != [] {
      DistinctHead(cats);
      GroupedAdd(cats[1..], e, es);
      GroupAdd(cats[0], e, es);
    }
  }

  lemma DistinctHead<T>(s: seq<T>)
    requires Distinct(s) && s != []
    ensures Distinct(s[1..]) && s[0] !in s[1..] && forall x :: x in s <==> x == s[0] || x in s[1..]
  {
    assert s == [s[0]] + s[1..];
  }

  lemma GroupAdd(cat: string, e: Entry, es: seq<Entry>)
    requires !IsBlank(e.line)
    ensures Categorized(cat, Bucket([e] + es, cat)) == (if e.category == cat then [e] else []) + Categorized(cat, Bucket(es, cat))
  {
    hide IsBlank, Bucket, Categorized;
    BucketAppend([e], es, cat);
    BucketOne(e, cat);
    Headings.CategorizedOne(cat, e.line);
    CategorizedAppend(cat, [e.line], Bucket(es, cat));
    assert [] + Bucket(es, cat) == Bucket(es, cat);
    assert [] + Categorized(cat, Bucket(es, cat)) == Categorized(cat, Bucket(es, cat));
  }

  /** Grouping keeps every entry as often as it occurs. */
  lemma {:induction false} GroupedKeeps(cats: seq<string>, es: seq<Entry>)
    requires Distinct(cats) && AllPrintable(es) && forall e :: e in es ==> e.category in cats
    ensures multiset(Grouped(cats, es)) == multiset(es)
  {
    hide IsBlank, CategoryOf, ReadableName, Distinct;
    if es == [] {
      GroupedNothing(cats);
    } else {
      assert es == [es[0]] + es[1..] && Printable(es[0]) && es[0] in es;
      GroupedKeeps(cats, es[1..]);
      GroupedAdd(cats, es[0], es[1..]);
    }
  }

  lemma {:induction false} GroupedNothing(cats: seq<string>)
    ensures Grouped(cats, []) == []
  {
    if cats != [] {
      GroupedNothing(cats[1..]);
      NothingCategorized(cats[0]);
    }
  }

  // ------------------------------------------------------- what the notes hold

  lemma NameIsReadable(line: string)
    requires CategoryOf(line).Some? && '\n' !in line
    ensures ReadableName(CategoryOf(line).value)
  {
    hide CategoryOf, Headings.Names;
    var name := CategoryOf(line).value;
    var blanks := Headings.CategoryIsNamed(line);
    NamedAlone(line, name, blanks);
    Headings.CategoryReadsBack("### " + name, name, "");
  }

  lemma NamedAlone(line: string, name: string, blanks: string)
    requires Headings.Names(line, name, blanks) && '\n' !in line
    ensures Headings.Names("### " + name, name, "") && '\n' !in name
  {
    hide Text.IsSpace;
    assert "### " + name + "" == "### " + name;
    forall i | 0 <= i < |name| ensures name[i] != '\n' {
      assert line[4 + i] == name[i];
    }
  }

  lemma {:induction false} BodyPrintable(body: Lines, before: Option<string>)
    requires (forall i :: 0 <= i < |body| ==> '\n' !in body[i]) && (before.Some? ==> ReadableName(before.value))
    ensures AllPrintable(BodyEntries(body, before))
    decreases |body|
  {
    hide IsBlank, CategoryOf, Categorized, ReadableName;
    if body != [] {
      if CategoryOf(body[0]).Some? {
        NameIsReadable(body[0]);
        BodyPrintable(body[1..], CategoryOf(body[0]));
      } else {
        BodyPrintable(body[1..], before);
        if before.Some? { Headings.CategorizedOne(before.value, body[0]); }
      }
    }
  }

  ghost predicate CleanSpan(s: Span) {
    forall i :: 0 <= i < |s.body| ==> '\n' !in s.body[i]
  }

  lemma {:induction false} SpansAreClean(lines: Lines)
    requires forall i :: 0 <= i < |lines| ==> '\n' !in lines[i]
    ensures Every(CleanSpan, Spans(lines))
  {
    hide HeadingVersion, Ahead;
    if lines != [] {
      SpansAreClean(lines[1..]);
    }
  }

  lemma {:induction false} SpansPrintable(spans: seq<Span>)
    requires Every(CleanSpan, spans)
    ensures AllPrintable(SpanEntries(spans))
  {
    hide BodyEntries, Printable;
    if spans != [] {
      assert CleanSpan(spans[0]);
      BodyPrintable(spans[0].body, None);
      SpansPrintable(spans[1..]);
    }
  }

  lemma {:induction false} KeptPrintable(es: seq<Entry>, seen: set<string>)
    requires AllPrintable(es)
    ensures AllPrintable(Kept(es, seen))
    decreases |es|
  {
    hide Printable, Key;
    if es != [] {
      KeptPrintable(es[1..], if Key(es[0]) in seen then seen else seen + {Key(es[0])});
    }
  }

  lemma MergedPrintable(content: string, floor: Option<string>, target: string)
    ensures AllPrintable(Merged(Spans(Split(content)), floor, target))
  {
    hide Split, InRange, CleanSpan, AllPrintable, Kept, SpanEntries, Spans;
    var spans := Spans(Split(content));
    var selected := Selected(spans, floor, target);
    SpansAreClean(Split(content));
    ChooseMembers(spans, floor, target);
    SameMembers(selected, Choose(spans, floor, target));
    EveryMember(CleanSpan, spans, selected);
    SpansPrintable(selected);
    KeptPrintable(SpanEntries(selected), {});
  }

  lemma {:induction false} NotesAreLines(cats: seq<string>, es: seq<Entry>)
    requires AllPrintable(es)
    ensures forall i :: 0 <= i < |RenderNotes(cats, es)| ==> '\n' !in RenderNotes(cats, es)[i]
  {
    hide Bucket, AllPrintable, CategoryOf;
    if cats != [] {
      NotesAreLines(cats[1..], es);
      BucketPlain(es, cats[0]);
    }
  }

  lemma ReadNothing()
    ensures BodyEntries(Split(Join([])), None) == []
  {
    var none: Lines := [""];
    assert Split("") == none && none[1..] == [] && none[0] == "";
    assert CategoryOf("").None?;
  }

  /** The text of the merged notes, read like a version's body, holds exactly the merged entries,
      each as often as it was merged. */
  lemma MergedNotesReadBack(content: string, floor: Option<string>, target: string, collate: (string, string) -> int, text: string)
    requires Prints(collate, Merged(Spans(Split(content)), floor, target), text)
    ensures multiset(BodyEntries(Split(text), None)) == multiset(Merged(Spans(Split(content)), floor, target))
  {
    hide Split, Join, Merged, RenderNotes, BodyEntries, AllPrintable, Spans, Grouped, Distinct;
    var es := Merged(Spans(Split(content)), floor, target);
    var cats :| Distinct(cats) && (forall e :: e in es ==> e.category in cats) && text == Join(RenderNotes(cats, es));
    MergedPrintable(content, floor, target);
    NotesReadGrouped(cats, es, None);
    GroupedKeeps(cats, es);
    var notes := RenderNotes(cats, es);
    if notes == [] {
      ReadNothing();
      BodyEnd(None);
    } else {
      NotesAreLines(cats, es);
      SplitJoin(notes);
    }
  }
}
