/** The line loops of the changelog fixer, on numbered lines (scripts/fix-changelogs.ts:119-123,
    210-275, 359-380). */
module ChangelogLines {
  import opened Lists
  import opened Items
  import opened StableSort
  import opened ChangelogText
  import opened ChangelogDocument
  import opened ChangelogFix
  import opened ChangelogItems
  import Text

  datatype NumberedLine = NumberedLine(text: string, lineNumber: nat)

  type NumberedLines = seq<NumberedLine>

  /** `numberedText` */
  function Texts(ls: NumberedLines): (r: Lines)
    ensures |r| == |ls| && forall i :: 0 <= i < |ls| ==> r[i] == ls[i].text
  {
    seq(|ls|, i requires 0 <= i < |ls| => ls[i].text)
  }

  /** Lines numbered from `first` on. */
  function Numbered(ls: Lines, first: nat): (r: NumberedLines)
    ensures |r| == |ls| && forall i :: 0 <= i < |ls| ==> r[i] == NumberedLine(ls[i], first + i)
  {
    seq(|ls|, i requires 0 <= i < |ls| => NumberedLine(ls[i], first + i))
  }

  /** `syntheticLines` */
  function Synthetic(ls: Lines): (r: NumberedLines)
    ensures |r| == |ls| && Texts(r) == ls
  {
    seq(|ls|, i requires 0 <= i < |ls| => NumberedLine(ls[i], 0))
  }

  // ---------------------------------------------------------------- trimming

  lemma TrimIs<T>(p: T -> bool, s: seq<T>, a: nat, b: nat)
    requires a <= b <= |s| && Every(p, s[..a]) && Every(p, s[b..])
    requires a < b ==> !p(s[a]) && !p(s[b - 1])
    ensures TrimBy(p, s) == s[a..b]
  {
    assert s == s[..a] + s[a..b] + s[b..];
    TrimCore(p, s[..a], s[a..b], s[b..]);
    TrimFixed(p, s[a..b]);
  }

  /** `trimBlankLines` */
  method TrimBlankLines(lines: Lines) returns (trimmed: Lines)
    ensures trimmed == TrimBlank(lines)
  {
    hide IsBlank, TrimBy;
    var start, end := 0, |lines|;
    while start < end && IsBlank(lines[start])
      invariant 0 <= start <= end && forall i :: 0 <= i < start ==> IsBlank(lines[i])
    {
      start := start + 1;
    }
    while end > start && IsBlank(lines[end - 1])
      invariant start <= end <= |lines| && forall i :: end <= i < |lines| ==> IsBlank(lines[i])
      invariant start < end ==> !IsBlank(lines[start])
    {
      end := end - 1;
    }
    TrimIs(IsBlank, lines, start, end);
    return lines[start..end];
  }

  // ------------------------------------------------------------------- items

  datatype ParsedItem = ParsedItem(startLine: nat, endLine: nat, lines: Lines)

  /** The item made of one chunk of numbered lines. */
  function ItemOf(c: NumberedLines): ParsedItem
    requires c != []
  {
    ParsedItem(c[0].lineNumber, c[|c| - 1].lineNumber, TrimBlank(Texts(c)))
  }

  predicate BulletAt(l: NumberedLine) {
    IsBullet(l.text)
  }

  /** The items of numbered lines: one for each chunk that starts with a bullet. */
  function ItemsIn(ls: NumberedLines): seq<ParsedItem> {
    ItemsOfChunks(Cut(BulletAt, ls))
  }

  function ItemsOfChunks(cs: seq<NumberedLines>): seq<ParsedItem> {
    if cs == [] then []
    else (if cs[0] == [] then [] else [ItemOf(cs[0])]) + ItemsOfChunks(cs[1..])
  }

  lemma CutStep(ls: NumberedLines, i: nat, end: nat)
    requires i < end <= |ls| && BulletAt(ls[i]) && Lacks(BulletAt, ls[i + 1..end]) && (end < |ls| ==> BulletAt(ls[end]))
    ensures ItemsIn(ls[i..]) == [ItemOf(ls[i..end])] + ItemsIn(ls[end..])
  {
    hide BulletAt, ItemOf;
    var c, rest := ls[i..end], ls[end..];
    assert ls[i..] == c + rest && c[1..] == ls[i + 1..end];
    assert Ahead(BulletAt, ls[i..]) == 0 && ls[i..][0..] == ls[i..];
    assert rest == [] || Ahead(BulletAt, rest) == 0;
    assert rest[Ahead(BulletAt, rest)..] == rest;
    ChunkStep(BulletAt, c, rest);
    assert ([c] + Chunks(BulletAt, rest))[1..] == Chunks(BulletAt, rest);
  }

  lemma CutSkip(ls: NumberedLines, i: nat)
    requires i < |ls| && !BulletAt(ls[i])
    ensures ItemsIn(ls[i..]) == ItemsIn(ls[i + 1..])
  {
    hide BulletAt, ItemsOfChunks;
    assert ls[i..] == [ls[i]] + ls[i + 1..];
    OneLacks(BulletAt, ls[i]);
    JoinWithoutItems(BulletAt, (l: NumberedLine) => false, [ls[i]], ls[i + 1..]);
  }

  lemma OneLacks<T>(m: T -> bool, x: T)
    requires !m(x)
    ensures Lacks(m, [x])
  {}

  /** Where the item that starts at `start` ends. */
  method ItemEnd(lines: NumberedLines, start: nat) returns (index: nat)
    requires start < |lines|
    ensures start < index <= |lines| && Lacks(BulletAt, lines[start + 1..index]) && (index < |lines| ==> BulletAt(lines[index]))
  {
    hide BulletAt, Lacks;
    index := start + 1;
    NothingLacks(BulletAt, lines, start + 1);
    while index < |lines| && !BulletAt(lines[index])
      invariant start < index <= |lines| && Lacks(BulletAt, lines[start + 1..index])
    {
      LacksMore(BulletAt, lines, start + 1, index);
      index := index + 1;
    }
  }

  /** The item that starts at `start`, and where the lines after it begin. */
  method ParseItem(lines: NumberedLines, start: nat) returns (item: ParsedItem, index: nat)
    requires start < |lines| && BulletAt(lines[start])
    ensures start < index <= |lines| && ItemsIn(lines[start..]) == [item] + ItemsIn(lines[index..])
  {
    hide BulletAt, ItemsIn, Lacks, ItemOf;
    index := ItemEnd(lines, start);
    CutStep(lines, start, index);
    item := MakeItem(lines[start..index]);
  }

  method MakeItem(itemLines: NumberedLines) returns (item: ParsedItem)
    requires itemLines != []
    ensures item == ItemOf(itemLines)
  {
    hide TrimBlank;
    var trimmed := TrimBlankLines(Texts(itemLines));
    item := ParsedItem(itemLines[0].lineNumber, itemLines[|itemLines| - 1].lineNumber, trimmed);
  }

  /** `parseItems` */
  method ParseItems(lines: NumberedLines) returns (items: seq<ParsedItem>)
    ensures items == ItemsIn(lines)
  {
    hide BulletAt, ItemsIn;
    items := [];
    var index := 0;
    assert lines[0..] == lines;
    while index < |lines|
      invariant 0 <= index <= |lines|
      invariant items + ItemsIn(lines[index..]) == ItemsIn(lines)
    {
      if !BulletAt(lines[index]) {
        CutSkip(lines, index);
        index := index + 1;
      } else {
        var item, next := ParseItem(lines, index);
        assert items + ([item] + ItemsIn(lines[next..])) == (items + [item]) + ItemsIn(lines[next..]);
        items := items + [item];
        index := next;
      }
    }
    NoItemsLeft(lines);
    assert items + [] == items;
  }

  lemma NothingLacks<T>(m: T -> bool, s: seq<T>, i: nat)
    requires i <= |s|
    ensures Lacks(m, s[i..i])
  {}

  lemma LacksMore<T>(m: T -> bool, s: seq<T>, a: nat, b: nat)
    requires a <= b < |s| && Lacks(m, s[a..b]) && !m(s[b])
    ensures Lacks(m, s[a..b + 1])
  {
    assert s[a..b + 1] == s[a..b] + [s[b]];
  }

  lemma NoItemsLeft(ls: NumberedLines)
    ensures ItemsIn(ls[|ls|..]) == []
  {}

  /** `lineRangeSet` */
  method LineRangeSet(items: seq<ParsedItem>) returns (lines: set<nat>)
    ensures forall n :: n in lines <==> exists k :: 0 <= k < |items| && items[k].startLine <= n <= items[k].endLine
  {
    lines := {};
    for k := 0 to |items|
      invariant forall n :: n in lines <==> exists l :: 0 <= l < k && items[l].startLine <= n <= items[l].endLine
    {
      var line := items[k].startLine;
      ghost var before := lines;
      while line <= items[k].endLine
        invariant items[k].startLine <= line
        invariant line <= items[k].endLine + 1 || line == items[k].startLine
        invariant forall n :: n in lines <==> n in before || (items[k].startLine <= n < line)
        decreases items[k].endLine - line
      {
        lines := lines + {line};
        line := line + 1;
      }
    }
  }

  // ------------------------------------------------- chunks, with and without numbers

  function TextsOf(cs: seq<NumberedLines>): (r: seq<Lines>)
    ensures |r| == |cs| && forall i :: 0 <= i < |cs| ==> r[i] == Texts(cs[i])
  {
    seq(|cs|, i requires 0 <= i < |cs| => Texts(cs[i]))
  }

  lemma TextsAppend(a: NumberedLines, b: NumberedLines)
    ensures Texts(a + b) == Texts(a) + Texts(b)
  {}

  lemma {:induction false} TextsFlatten(cs: seq<NumberedLines>)
    ensures Texts(Flatten(cs)) == Flatten(TextsOf(cs))
  {
    if cs != [] {
      TextsFlatten(cs[1..]);
      TextsAppend(cs[0], Flatten(cs[1..]));
      assert TextsOf(cs)[1..] == TextsOf(cs[1..]);
    }
  }

  lemma TextsChunks(cs: seq<NumberedLines>)
    requires AreChunks(BulletAt, cs)
    ensures AreChunks(IsBullet, TextsOf(cs))
  {
    hide IsBullet;
    forall i | 0 <= i < |cs| ensures IsChunk(IsBullet, Texts(cs[i])) {
      assert IsChunk(BulletAt, cs[i]);
      assert forall k :: 0 <= k < |cs[i][1..]| ==> Texts(cs[i])[1..][k] == cs[i][1..][k].text;
    }
  }

  /** Cutting the texts is cutting the lines. */
  lemma CutTexts(ls: NumberedLines)
    ensures Preamble(IsBullet, Texts(ls)) == Texts(Preamble(BulletAt, ls))
    ensures Cut(IsBullet, Texts(ls)) == TextsOf(Cut(BulletAt, ls))
  {
    hide IsBullet;
    var pre, cs := Preamble(BulletAt, ls), Cut(BulletAt, ls);
    CutParts(BulletAt, ls);
    TextsAppend(pre, Flatten(cs));
    TextsFlatten(cs);
    TextsChunks(cs);
    assert Lacks(IsBullet, Texts(pre));
    CutIs(IsBullet, Texts(pre), TextsOf(cs));
  }

  /** The lines of the parsed items are the items of the texts. */
  lemma ItemTexts(ls: NumberedLines)
    ensures |ItemsIn(ls)| == |Bullets(Texts(ls))|
    ensures forall k :: 0 <= k < |ItemsIn(ls)| ==> ItemsIn(ls)[k].lines == Bullets(Texts(ls))[k]
  {
    hide BulletAt, TrimBy;
    CutTexts(ls);
    CutParts(BulletAt, ls);
    ChunkItems(Cut(BulletAt, ls));
  }

  lemma {:induction false} ChunkItems(cs: seq<NumberedLines>)
    requires AreChunks(BulletAt, cs)
    ensures |ItemsOfChunks(cs)| == |cs| && forall k :: 0 <= k < |cs| ==> cs[k] != [] && ItemsOfChunks(cs)[k] == ItemOf(cs[k])
  {
    hide BulletAt, ItemOf;
    if cs != [] {
      assert IsChunk(BulletAt, cs[0]);
      assert forall k :: 0 <= k < |cs| - 1 ==> cs[1..][k] == cs[k + 1];
      ChunkItems(cs[1..]);
    }
  }

  // ------------------------------------------------------------ removal by number

  /** Line numbers ascend. */
  ghost predicate Increasing(ls: NumberedLines) {
    forall i, j :: 0 <= i < j < |ls| ==> ls[i].lineNumber < ls[j].lineNumber
  }

  function Chosen<T>(s: seq<T>, drop: seq<bool>): seq<T>
    requires |s| == |drop|
  {
    if s == [] then [] else (if drop[0] then [s[0]] else []) + Chosen(s[1..], drop[1..])
  }

  function Spared<T>(s: seq<T>, drop: seq<bool>): seq<T>
    requires |s| == |drop|
  {
    if s == [] then [] else (if drop[0] then [] else [s[0]]) + Spared(s[1..], drop[1..])
  }

  function Without(ls: NumberedLines, numbers: set<nat>): NumberedLines {
    if ls == [] then [] else (if ls[0].lineNumber in numbers then [] else [ls[0]]) + Without(ls[1..], numbers)
  }

  lemma WithoutStep(ls: NumberedLines, numbers: set<nat>, i: nat, kept: NumberedLines)
    requires i < |ls|
    ensures kept + Without(ls[i..], numbers) == (if ls[i].lineNumber in numbers then kept else kept + [ls[i]]) + Without(ls[i + 1..], numbers)
  {
    var rest := Without(ls[i + 1..], numbers);
    assert ls[i..][1..] == ls[i + 1..];
    assert [] + rest == rest && kept + ([ls[i]] + rest) == kept + [ls[i]] + rest;
  }

  /** `lines.filter(line => !linesToRemove.has(line.lineNumber))` */
  method FilterLines(lines: NumberedLines, linesToRemove: set<nat>) returns (kept: NumberedLines)
    ensures kept == Without(lines, linesToRemove)
  {
    hide Without;
    kept := [];
    WithoutStart(lines, linesToRemove);
    for i := 0 to |lines|
      invariant kept + Without(lines[i..], linesToRemove) == Without(lines, linesToRemove)
    {
      WithoutStep(lines, linesToRemove, i, kept);
      if lines[i].lineNumber !in linesToRemove {
        kept := kept + [lines[i]];
      }
    }
    assert kept + [] == kept;
  }

  lemma WithoutStart(ls: NumberedLines, numbers: set<nat>)
    ensures ls[0..] == ls && [] + Without(ls, numbers) == Without(ls, numbers) && Without(ls[|ls|..], numbers) == []
  {}

  lemma {:induction false} WithoutAppend(a: NumberedLines, b: NumberedLines, numbers: set<nat>)
    ensures Without(a + b, numbers) == Without(a, numbers) + Without(b, numbers)
  {
    if a == [] {
      assert a + b == b;
    } else {
      assert (a + b)[1..] == a[1..] + b;
      WithoutAppend(a[1..], b, numbers);
    }
  }

  lemma {:induction false} WithoutUniform(ls: NumberedLines, numbers: set<nat>, gone: bool)
    requires forall i :: 0 <= i < |ls| ==> (ls[i].lineNumber in numbers <==> gone)
    ensures Without(ls, numbers) == if gone then [] else ls
  {
    if ls != [] {
      WithoutUniform(ls[1..], numbers, gone);
    }
  }

  /** Numbers that take whole pieces take exactly those. */
  lemma {:induction false} WithoutPieces(ps: seq<NumberedLines>, drop: seq<bool>, numbers: set<nat>)
    requires |ps| == |drop|
    requires forall k, i :: 0 <= k < |ps| && 0 <= i < |ps[k]| ==> (ps[k][i].lineNumber in numbers <==> drop[k])
    ensures Without(Flatten(ps), numbers) == Flatten(Spared(ps, drop))
  {
    if ps != [] {
      WithoutAppend(ps[0], Flatten(ps[1..]), numbers);
      WithoutUniform(ps[0], numbers, drop[0]);
      assert forall k :: 0 <= k < |ps| - 1 ==> ps[1..][k] == ps[k + 1] && drop[1..][k] == drop[k + 1];
      WithoutPieces(ps[1..], drop[1..], numbers);
      var rest := Spared(ps[1..], drop[1..]);
      assert ([ps[0]] + rest)[1..] == rest && [] + rest == rest;
    }
  }

  /** Lines of an earlier piece have smaller numbers. */
  lemma {:induction false} PiecesOrdered(ps: seq<NumberedLines>, a: nat, b: nat, i: nat, j: nat)
    requires Increasing(Flatten(ps)) && a < b < |ps| && i < |ps[a]| && j < |ps[b]|
    ensures ps[a][i].lineNumber < ps[b][j].lineNumber
  {
    var rest := Flatten(ps[1..]);
    assert Flatten(ps) == ps[0] + rest;
    if a == 0 {
      InFlat(ps[1..], b - 1, j);
      var k :| 0 <= k < |rest| && rest[k] == ps[1..][b - 1][j];
      assert (ps[0] + rest)[|ps[0]| + k] == ps[b][j] && (ps[0] + rest)[i] == ps[0][i];
    } else {
      IncreasingTail(ps[0], rest);
      PiecesOrdered(ps[1..], a - 1, b - 1, i, j);
    }
  }

  lemma IncreasingTail(a: NumberedLines, b: NumberedLines)
    requires Increasing(a + b)
    ensures Increasing(b)
  {
    forall i, j | 0 <= i < j < |b| ensures b[i].lineNumber < b[j].lineNumber {
      assert (a + b)[|a| + i] == b[i] && (a + b)[|a| + j] == b[j];
    }
  }

  lemma {:induction false} InFlat(ps: seq<NumberedLines>, k: nat, i: nat)
    requires k < |ps| && i < |ps[k]|
    ensures exists n :: 0 <= n < |Flatten(ps)| && Flatten(ps)[n] == ps[k][i]
  {
    if k == 0 {
      assert Flatten(ps)[i] == ps[0][i];
    } else {
      InFlat(ps[1..], k - 1, i);
      var n :| 0 <= n < |Flatten(ps[1..])| && Flatten(ps[1..])[n] == ps[k][i];
      assert Flatten(ps)[|ps[0]| + n] == ps[k][i];
    }
  }

  lemma {:induction false} PieceIncreasing(ps: seq<NumberedLines>, k: nat)
    requires Increasing(Flatten(ps)) && k < |ps|
    ensures Increasing(ps[k])
  {
    assert Flatten(ps) == ps[0] + Flatten(ps[1..]);
    if k == 0 {
      forall i, j | 0 <= i < j < |ps[0]| ensures ps[0][i].lineNumber < ps[0][j].lineNumber {
        assert Flatten(ps)[i] == ps[0][i] && Flatten(ps)[j] == ps[0][j];
      }
    } else {
      IncreasingTail(ps[0], Flatten(ps[1..]));
      PieceIncreasing(ps[1..], k - 1);
    }
  }

  lemma {:induction false} ChosenIs<T>(s: seq<T>, drop: seq<bool>, x: T)
    requires |s| == |drop|
    ensures x in Chosen(s, drop) <==> exists k :: 0 <= k < |s| && drop[k] && s[k] == x
  {
    if s != [] {
      ChosenIs(s[1..], drop[1..], x);
      if k :| 0 <= k < |s| && drop[k] && s[k] == x {
        if k > 0 {
          assert drop[1..][k - 1] && s[1..][k - 1] == x;
        }
      }
      if k :| 0 <= k < |s| - 1 && drop[1..][k] && s[1..][k] == x {
        assert drop[k + 1] && s[k + 1] == x;
      }
    }
  }

  /** A line's number lies in the range of a piece exactly when the line is in it. */
  lemma RangeHits(ps: seq<NumberedLines>, a: nat, b: nat, i: nat)
    requires Increasing(Flatten(ps)) && a < |ps| && b < |ps| && i < |ps[a]| && ps[b] != []
    ensures ps[b][0].lineNumber <= ps[a][i].lineNumber <= ps[b][|ps[b]| - 1].lineNumber <==> a == b
  {
    if a < b {
      PiecesOrdered(ps, a, b, i, 0);
    } else if b < a {
      PiecesOrdered(ps, b, a, |ps[b]| - 1, i);
    } else {
      PieceIncreasing(ps, a);
    }
  }

  /** The numbers that `lineRangeSet` gives for the chosen items. */
  ghost predicate RangesOf(items: seq<ParsedItem>, numbers: set<nat>) {
    forall n :: n in numbers <==> exists k :: 0 <= k < |items| && items[k].startLine <= n <= items[k].endLine
  }

  lemma ChosenRanges(cs: seq<NumberedLines>, drop: seq<bool>, numbers: set<nat>, n: nat)
    requires |cs| == |drop| && AreChunks(BulletAt, cs) && |ItemsOfChunks(cs)| == |cs|
    requires RangesOf(Chosen(ItemsOfChunks(cs), drop), numbers)
    ensures n in numbers <==> exists k :: 0 <= k < |cs| && drop[k] && InRangeOf(cs[k], n)
  {
    hide BulletAt, Chosen;
    ChunkItems(cs);
    var items := ItemsOfChunks(cs);
    if n in numbers {
      var l :| 0 <= l < |Chosen(items, drop)| && Chosen(items, drop)[l].startLine <= n <= Chosen(items, drop)[l].endLine;
      ChosenIs(items, drop, Chosen(items, drop)[l]);
      var k :| 0 <= k < |items| && drop[k] && items[k] == Chosen(items, drop)[l];
      assert InRangeOf(cs[k], n);
    }
    if k :| 0 <= k < |cs| && drop[k] && InRangeOf(cs[k], n) {
      ChosenIs(items, drop, items[k]);
      var l :| 0 <= l < |Chosen(items, drop)| && Chosen(items, drop)[l] == items[k];
    }
  }

  predicate InRangeOf(c: NumberedLines, n: nat) {
    c != [] && c[0].lineNumber <= n <= c[|c| - 1].lineNumber
  }

  lemma RemovedExactly(lines: NumberedLines, drop: seq<bool>, numbers: set<nat>)
    requires Increasing(lines) && |drop| == |Cut(BulletAt, lines)| == |ItemsIn(lines)|
    requires RangesOf(Chosen(ItemsIn(lines), drop), numbers)
    ensures Without(lines, numbers) == Preamble(BulletAt, lines) + Flatten(Spared(Cut(BulletAt, lines), drop))
  {
    hide BulletAt, Chosen, RangesOf, Increasing, InRangeOf;
    var pre, cs := Preamble(BulletAt, lines), Cut(BulletAt, lines);
    CutParts(BulletAt, lines);
    var ps, gone := [pre] + cs, [false] + drop;
    assert ps[1..] == cs && gone[1..] == drop;
    assert Flatten(ps) == lines;
    forall k, i | 0 <= k < |ps| && 0 <= i < |ps[k]| ensures ps[k][i].lineNumber in numbers <==> gone[k] {
      PieceGone(ps, cs, drop, numbers, k, i);
    }
    WithoutPieces(ps, gone, numbers);
    assert Spared(ps, gone) == [pre] + Spared(cs, drop);
    assert ([pre] + Spared(cs, drop))[1..] == Spared(cs, drop);
  }

  lemma PieceGone(ps: seq<NumberedLines>, cs: seq<NumberedLines>, drop: seq<bool>, numbers: set<nat>, k: nat, i: nat)
    requires ps != [] && ps[1..] == cs && |cs| == |drop| && AreChunks(BulletAt, cs) && |ItemsOfChunks(cs)| == |cs|
    requires Increasing(Flatten(ps)) && RangesOf(Chosen(ItemsOfChunks(cs), drop), numbers)
    requires k < |ps| && i < |ps[k]|
    ensures ps[k][i].lineNumber in numbers <==> k > 0 && drop[k - 1]
  {
    hide BulletAt, Chosen, RangesOf, Increasing, ItemsOfChunks, Flatten;
    var n := ps[k][i].lineNumber;
    ChosenRanges(cs, drop, numbers, n);
    forall l | 0 <= l < |cs| ensures InRangeOf(cs[l], n) <==> l + 1 == k {
      assert cs[l] == ps[l + 1] && IsChunk(BulletAt, cs[l]);
      RangeHits(ps, k, l + 1, i);
    }
  }

  /** Removes whole items by their line numbers: exactly those items go. */
  method RemoveItems(lines: NumberedLines, items: seq<ParsedItem>, ghost drop: seq<bool>) returns (kept: NumberedLines)
    requires Increasing(lines) && |drop| == |Cut(BulletAt, lines)| == |ItemsIn(lines)|
    requires items == Chosen(ItemsIn(lines), drop)
    ensures kept == Preamble(BulletAt, lines) + Flatten(Spared(Cut(BulletAt, lines), drop))
  {
    hide BulletAt, Chosen, Increasing, Without, Spared, ItemsIn;
    var linesToRemove := LineRangeSet(items);
    kept := FilterLines(lines, linesToRemove);
    RemovedExactly(lines, drop, linesToRemove);
  }

  lemma {:induction false} SparedTexts(cs: seq<NumberedLines>, drop: seq<bool>)
    requires |cs| == |drop|
    ensures TextsOf(Spared(cs, drop)) == Spared(TextsOf(cs), drop)
  {
    if cs != [] {
      SparedTexts(cs[1..], drop[1..]);
      assert TextsOf(cs)[1..] == TextsOf(cs[1..]);
      var rest := Spared(cs[1..], drop[1..]);
      assert TextsOf([cs[0]] + rest) == [Texts(cs[0])] + TextsOf(rest);
      assert [] + rest == rest;
    }
  }

  /** The texts that are left. */
  lemma RemainingTexts(lines: NumberedLines, drop: seq<bool>)
    requires |drop| == |Cut(BulletAt, lines)| == |Cut(IsBullet, Texts(lines))|
    ensures Texts(Preamble(BulletAt, lines) + Flatten(Spared(Cut(BulletAt, lines), drop)))
         == Preamble(IsBullet, Texts(lines)) + Flatten(Spared(Cut(IsBullet, Texts(lines)), drop))
  {
    hide BulletAt, IsBullet, Spared, Flatten, Cut, Preamble, Texts;
    CutTexts(lines);
    TextsAppend(Preamble(BulletAt, lines), Flatten(Spared(Cut(BulletAt, lines), drop)));
    TextsFlatten(Spared(Cut(BulletAt, lines), drop));
    SparedTexts(Cut(BulletAt, lines), drop);
  }
}
