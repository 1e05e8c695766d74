/** What the rewriter's line scans recognize: frontmatter, code fences, list items
    (scripts/rewrite-system-prompt.ts:104-125, 177-216). */
module PromptForms {
  import opened Basics
  import opened ChangelogText
  import opened PromptRewriter
  import Lists
  import Text

  // ------------------------------------------------------------ single lines

  lemma TrimKeepsFront(pre: string, s: string)
    requires Text.AllSpace(pre) && s != [] && !Text.IsSpace(s[0])
    ensures Text.TrimStart(pre + s) == s && Text.Trim(pre + s) == Text.TrimEnd(s)
  {
    hide Text.IsSpace;
    Text.TrimStartSkips(pre, s);
  }

  /** Every text is white space around its trim. */
  lemma AroundTrim(s: string) returns (pre: string, post: string)
    ensures Text.AllSpace(pre) && Text.AllSpace(post) && s == pre + Text.Trim(s) + post
  {
    hide Text.IsSpace;
    Text.TrimStartIs(s);
    var t := Text.TrimStart(s);
    Text.TrimEndIs(t);
    pre, post := s[..|s| - |t|], t[|Text.TrimEnd(t)|..];
    assert s == pre + t && t == Text.Trim(s) + post;
  }

  /** A rule: three dashes with white space around them. */
  lemma RuleExactly(line: string)
    ensures IsRule(line) <==> exists pre, post :: Text.AllSpace(pre) && Text.AllSpace(post) && line == pre + "---" + post
  {
    hide Text.Trim, Text.TrimEnd, Text.TrimStart;
    if IsRule(line) {
      var pre, post := AroundTrim(line);
    }
    if pre, post :| Text.AllSpace(pre) && Text.AllSpace(post) && line == pre + "---" + post {
      RuleIs(line, pre, post);
    }
  }

  lemma RuleIs(line: string, pre: string, post: string)
    requires Text.AllSpace(pre) && Text.AllSpace(post) && line == pre + "---" + post
    ensures IsRule(line)
  {
    assert line == pre + ("---" + post);
    TrimKeepsFront(pre, "---" + post);
    Text.TrimEndSkips("---", post);
  }

  /** A fence: white space, then three backquotes or three tildes. */
  lemma FenceExactly(line: string, c: char)
    ensures Fence(line) == Some(c) <==> c in "`~" && exists pre, rest :: Text.AllSpace(pre) && line == pre + ([c, c, c] + rest)
  {
    hide Text.Trim;
    if Fence(line) == Some(c) {
      var pre, post := AroundTrim(line);
      var t := Text.Trim(line);
      assert t == [c, c, c] + t[3..];
      assert line == pre + ([c, c, c] + (t[3..] + post));
    }
    if c in "`~" {
      if pre, rest :| Text.AllSpace(pre) && line == pre + ([c, c, c] + rest) {
        FenceIs(line, c, pre, rest);
      }
    }
  }

  lemma FenceIs(line: string, c: char, pre: string, rest: string)
    requires c in "`~" && Text.AllSpace(pre) && line == pre + ([c, c, c] + rest)
    ensures Fence(line) == Some(c)
  {
    hide Text.TrimEnd;
    var s := [c, c, c] + rest;
    TrimKeepsFront(pre, s);
    EndKeeps([c, c, c], rest);
  }

  lemma {:induction false} EndKeeps(front: string, rest: string)
    requires front != [] && !Text.IsSpace(front[|front| - 1])
    ensures front <= Text.TrimEnd(front + rest)
    decreases |rest|
  {
    hide Text.IsSpace;
    var s := front + rest;
    if rest == [] {
      assert s == front;
    } else {
      assert s[..|s| - 1] == front + rest[..|rest| - 1];
      EndKeeps(front, rest[..|rest| - 1]);
    }
  }

  // ---------------------------------------------------------- fenced blocks

  /** The first and the last line of a fenced block; the last is past the end if it never closes. */
  datatype Fenced = Fenced(open: nat, close: nat)

  /** A fence opens the block, and the next fence of the same character closes it. */
  ghost predicate BlockOk(lines: Lines, b: Fenced) {
    && b.open < b.close <= |lines| && Fence(lines[b.open]).Some?
    && (forall i :: b.open < i < b.close ==> Fence(lines[i]) != Fence(lines[b.open]))
    && (b.close < |lines| ==> Fence(lines[b.close]) == Fence(lines[b.open]))
  }

  ghost predicate Inside(i: nat, b: Fenced) {
    b.open <= i <= b.close
  }

  ghost predicate InSome(i: nat, bs: seq<Fenced>) {
    exists k :: 0 <= k < |bs| && Inside(i, bs[k])
  }

  /** Blocks one after the other, with no fence outside them. */
  ghost predicate BlocksOk(lines: Lines, bs: seq<Fenced>) {
    && (forall k :: 0 <= k < |bs| ==> BlockOk(lines, bs[k]))
    && (forall k, l :: 0 <= k < l < |bs| ==> bs[k].close < bs[l].open)
    && (forall i :: 0 <= i < |lines| && Fence(lines[i]).Some? ==> InSome(i, bs))
  }

  ghost predicate MasksBlocks(mask: seq<bool>, bs: seq<Fenced>) {
    forall i :: 0 <= i < |mask| ==> (mask[i] <==> InSome(i, bs))
  }

  predicate AnyFence(line: string) {
    Fence(line).Some?
  }

  function SameFence(c: char): string -> bool {
    (line: string) => Fence(line) == Some(c)
  }

  /** Outside a block nothing is marked up to the next fence. */
  lemma {:induction false} MaskToFence(lines: Lines)
    ensures var o := Lists.Ahead(AnyFence, lines);
      && (forall i :: 0 <= i < o ==> !FenceMask(lines, None)[i])
      && (o < |lines| ==> FenceMask(lines, None)[o] && FenceMask(lines, None)[o + 1..] == FenceMask(lines[o + 1..], Fence(lines[o])))
  {
    hide Fence, FenceMask;
    if lines != [] {
      FenceMaskStep(lines, 0, None);
      assert lines[0..] == lines;
    }
    if lines != [] && !AnyFence(lines[0]) {
      MaskToFence(lines[1..]);
      var o := Lists.Ahead(AnyFence, lines[1..]);
      if o < |lines[1..]| {
        assert lines[1..][o + 1..] == lines[o + 2..];
      }
    }
  }

  /** Inside a block everything is marked up to the fence that closes it. */
  lemma {:induction false} MaskToClose(lines: Lines, c: char)
    ensures var k := Lists.Ahead(SameFence(c), lines);
      && (forall i :: 0 <= i <= k && i < |lines| ==> FenceMask(lines, Some(c))[i])
      && (k < |lines| ==> FenceMask(lines, Some(c))[k + 1..] == FenceMask(lines[k + 1..], None))
  {
    hide Fence, FenceMask;
    if lines != [] {
      FenceMaskStep(lines, 0, Some(c));
      assert lines[0..] == lines;
      if !SameFence(c)(lines[0]) {
        MaskToClose(lines[1..], c);
        var k := Lists.Ahead(SameFence(c), lines[1..]);
        if k < |lines[1..]| {
          assert lines[1..][k + 1..] == lines[k + 2..];
        }
      }
    }
  }

  ghost function Moved(bs: seq<Fenced>, n: nat): seq<Fenced> {
    seq(|bs|, k requires 0 <= k < |bs| => Fenced(bs[k].open + n, bs[k].close + n))
  }

  lemma MovedInSome(i: nat, bs: seq<Fenced>, n: nat)
    ensures InSome(i + n, Moved(bs, n)) <==> InSome(i, bs)
    ensures i < n ==> !InSome(i, Moved(bs, n))
  {
    if k :| 0 <= k < |bs| && Inside(i, bs[k]) {
      assert Inside(i + n, Moved(bs, n)[k]);
    }
    if k :| 0 <= k < |bs| && Inside(i + n, Moved(bs, n)[k]) {
      assert Inside(i, bs[k]);
    }
  }

  lemma MovedOk(lines: Lines, bs: seq<Fenced>, n: nat)
    requires n <= |lines| && BlocksOk(lines[n..], bs)
    ensures forall k :: 0 <= k < |bs| ==> BlockOk(lines, Moved(bs, n)[k]) && Moved(bs, n)[k].open >= n
    ensures forall k, l :: 0 <= k < l < |bs| ==> Moved(bs, n)[k].close < Moved(bs, n)[l].open
  {
    hide Fence, InSome;
    forall k | 0 <= k < |bs| ensures BlockOk(lines, Moved(bs, n)[k]) {
      MovedBlock(lines, bs[k], n);
    }
  }

  lemma MovedBlock(lines: Lines, b: Fenced, n: nat)
    requires n <= |lines| && BlockOk(lines[n..], b)
    ensures BlockOk(lines, Fenced(b.open + n, b.close + n))
  {
    hide Fence;
    forall i | b.open + n < i < b.close + n ensures Fence(lines[i]) != Fence(lines[b.open + n]) {
      assert lines[n..][i - n] == lines[i];
    }
  }

  /** A block in front of the blocks of what follows it. */
  lemma BlockInFront(lines: Lines, b: Fenced, rest: seq<Fenced>, mask: seq<bool>)
    requires |mask| == |lines| && BlockOk(lines, b) && (forall i :: 0 <= i < b.open ==> Fence(lines[i]).None? && !mask[i])
    requires forall i :: b.open <= i <= b.close && i < |lines| ==> mask[i]
    requires b.close < |lines| ==> BlocksOk(lines[b.close + 1..], rest) && MasksBlocks(mask[b.close + 1..], rest)
    requires b.close == |lines| ==> rest == []
    ensures BlocksOk(lines, [b] + Moved(rest, b.close + 1)) && MasksBlocks(mask, [b] + Moved(rest, b.close + 1))
  {
    hide Fence, BlockOk, InSome;
    var n := b.close + 1;
    var moved, all := Moved(rest, n), [b] + Moved(rest, n);
    if b.close < |lines| {
      MovedOk(lines, rest, n);
    }
    forall i: nat | i < |lines|
      ensures mask[i] <==> InSome(i, all)
      ensures Fence(lines[i]).Some? ==> InSome(i, all)
    {
      InFront(i, b, moved);
      if i < n {
        MovedInSome(i, rest, n);
      } else {
        MovedInSome(i - n, rest, n);
        assert mask[n..][i - n] == mask[i] && lines[n..][i - n] == lines[i];
      }
    }
    BlockMeans(lines, b);
  }

  lemma BlockMeans(lines: Lines, b: Fenced)
    requires BlockOk(lines, b)
    ensures b.open < b.close <= |lines|
  {}

  lemma InFront(i: nat, b: Fenced, bs: seq<Fenced>)
    ensures InSome(i, [b] + bs) <==> Inside(i, b) || InSome(i, bs)
  {
    hide Inside;
    var all := [b] + bs;
    if Inside(i, b) {
      assert Inside(i, all[0]);
    }
    if k :| 0 <= k < |bs| && Inside(i, bs[k]) {
      assert Inside(i, all[k + 1]);
    }
  }

  /** The fence mask marks the fenced blocks, fences included: each runs from a fence to the next one
      of the same character, or to the end. */
  lemma {:induction false} MaskIsBlocks(lines: Lines)
    ensures exists bs :: BlocksOk(lines, bs) && MasksBlocks(FenceMask(lines, None), bs)
    decreases |lines|
  {
    hide Fence, FenceMask, BlocksOk, MasksBlocks, BlockOk, AnyFence, SameFence, Lists.Ahead, Lists.Lacks;
    var o, mask := Lists.Ahead(AnyFence, lines), FenceMask(lines, None);
    MaskToFence(lines);
    NoneAhead(lines);
    if o == |lines| {
      NoBlocks(lines, mask);
    } else {
      var c := Fence(lines[o]).value;
      var k := Lists.Ahead(SameFence(c), lines[o + 1..]);
      MaskToClose(lines[o + 1..], c);
      var b := Fenced(o, o + 1 + k);
      FirstBlock(lines, o, c);
      forall i | o < i <= b.close && i < |lines| ensures mask[i] {
        assert mask[o + 1..][i - o - 1] == mask[i];
      }
      if b.close == |lines| {
        BlockInFront(lines, b, [], mask);
      } else {
        assert lines[o + 1..][k + 1..] == lines[b.close + 1..] && mask[o + 1..][k + 1..] == mask[b.close + 1..];
        MaskIsBlocks(lines[b.close + 1..]);
        var rest :| BlocksOk(lines[b.close + 1..], rest) && MasksBlocks(FenceMask(lines[b.close + 1..], None), rest);
        BlockInFront(lines, b, rest, mask);
      }
    }
  }

  lemma NoneAhead(lines: Lines)
    ensures var o := Lists.Ahead(AnyFence, lines);
      (forall i :: 0 <= i < o ==> Fence(lines[i]).None?) && (o < |lines| ==> Fence(lines[o]).Some?)
  {
    hide Fence, Lists.Ahead;
    var o := Lists.Ahead(AnyFence, lines);
    forall i | 0 <= i < o ensures Fence(lines[i]).None? {
      assert !AnyFence(lines[..o][i]);
    }
  }

  lemma NoBlocks(lines: Lines, mask: seq<bool>)
    requires |mask| == |lines| && forall i :: 0 <= i < |lines| ==> Fence(lines[i]).None? && !mask[i]
    ensures BlocksOk(lines, []) && MasksBlocks(mask, [])
  {
    hide Fence;
  }

  lemma FirstBlock(lines: Lines, o: nat, c: char)
    requires o < |lines| && Fence(lines[o]) == Some(c)
    ensures BlockOk(lines, Fenced(o, o + 1 + Lists.Ahead(SameFence(c), lines[o + 1..])))
  {
    hide Fence, Lists.Ahead;
    var rest := lines[o + 1..];
    var k := Lists.Ahead(SameFence(c), rest);
    forall i | o < i < o + 1 + k ensures Fence(lines[i]) != Some(c) {
      assert !SameFence(c)(rest[..k][i - o - 1]);
    }
  }

  // ------------------------------------------------------------- frontmatter

  /** The frontmatter runs from a rule on the first line to the next rule; without a closing rule
      there is none. */
  ghost predicate Closes(lines: Lines, k: nat) {
    && k >= 2 && k <= |lines| && IsRule(lines[0]) && IsRule(lines[k - 1]) && forall i :: 0 < i < k - 1 ==> !IsRule(lines[i])
  }

  lemma FrontMatterExactly(lines: Lines)
    ensures if FrontMatter(lines) > 0 then Closes(lines, FrontMatter(lines)) else forall k :: !Closes(lines, k)
  {
    hide IsRule, Lists.Ahead;
    if lines != [] && IsRule(lines[0]) {
      var rest := lines[1..];
      var k := Lists.Ahead(IsRule, rest);
      forall i | 0 < i < k + 1 ensures !IsRule(lines[i]) {
        assert !IsRule(rest[..k][i - 1]);
      }
    }
  }

  /** A line is skipped exactly if it is in the frontmatter or in a fenced block of what follows it. */
  lemma SkippedExactly(lines: Lines)
    ensures var k := FrontMatter(lines);
      exists bs :: BlocksOk(lines[k..], bs) && forall i :: 0 <= i < |lines| ==> (SkipMask(lines)[i] <==> i < k || InSome(i - k, bs))
  {
    hide FenceMask, FrontMatter, BlocksOk, InSome;
    var k := FrontMatter(lines);
    MaskIsBlocks(lines[k..]);
    var bs :| BlocksOk(lines[k..], bs) && MasksBlocks(FenceMask(lines[k..], None), bs);
    forall i | 0 <= i < |lines| ensures SkipMask(lines)[i] <==> i < k || InSome(i - k, bs) {
      if i >= k {
        assert SkipMask(lines)[i] == FenceMask(lines[k..], None)[i - k];
      }
    }
  }

  // -------------------------------------------------------------- list items

  /** A bullet, or a number with a dot. */
  predicate IsMark(mark: string) {
    || mark in {"-", "*", "+"}
    || (|mark| >= 2 && mark[|mark| - 1] == '.' && forall i :: 0 <= i < |mark| - 1 ==> '0' <= mark[i] <= '9')
  }

  /** The text ends in two closing braces, white space aside. */
  predicate EndsInBraces(s: string) {
    var t := Text.TrimEnd(s);
    |t| >= 2 && t[|t| - 2..] == "}}"
  }

  lemma {:induction false} DigitsCounted(d: string, rest: string)
    requires (forall i :: 0 <= i < |d| ==> '0' <= d[i] <= '9') && rest != [] && !('0' <= rest[0] <= '9')
    ensures DigitCount(d + rest) == |d|
  {
    if d == [] {
      assert d + rest == rest;
    } else {
      assert (d + rest)[1..] == d[1..] + rest;
      DigitsCounted(d[1..], rest);
    }
  }

  lemma MarkIsVisible(mark: string)
    requires IsMark(mark)
    ensures mark != [] && !Text.IsSpace(mark[0]) && mark[0] != '{'
  {}

  lemma MarkerReads(indent: string, mark: string, gap: string, text: string)
    requires Text.AllSpace(indent) && IsMark(mark) && gap != [] && Text.AllSpace(gap) && text != [] && !Text.IsSpace(text[0])
    ensures Marker(indent + (mark + (gap + text))) == |indent| + |mark| + |gap|
  {
    hide Text.TrimStart, Text.IsSpace, DigitCount, IsMark;
    var rest := gap + text;
    var t := mark + rest;
    MarkIsVisible(mark);
    Text.TrimStartSkips(indent, t);
    Text.TrimStartSkips(gap, text);
    AfterMark(mark, rest);
    assert rest[0] == gap[0];
  }

  lemma AfterMark(mark: string, rest: string)
    requires IsMark(mark) && rest != []
    ensures var t := mark + rest;
      rest == if t[0] in "-*+" then t[1..] else if 0 < DigitCount(t) < |t| && t[DigitCount(t)] == '.' then t[DigitCount(t) + 1..] else []
  {
    var t := mark + rest;
    if mark in {"-", "*", "+"} {
      assert t[1..] == rest;
    } else {
      var d := mark[..|mark| - 1];
      assert t == d + ("." + rest);
      DigitsCounted(d, "." + rest);
      assert t[|d| + 1..] == rest;
    }
  }

  lemma NoLeadingBlock(indent: string, s: string)
    requires Text.AllSpace(indent) && s != [] && !Text.IsSpace(s[0]) && s[0] != '{'
    ensures LeadingLength(indent + s) == 0
  {
    hide Text.TrimStart;
    TrimKeepsFront(indent, s);
  }

  /** A tail of a text that does not end in braces is no block token. */
  lemma TailIsNoToken(s: string, k: nat)
    requires k <= |s| && !EndsInBraces(s)
    ensures !IsBlockToken(s[k..])
  {
    hide Text.IsSpace, Text.TrimStart, Text.TrimEnd;
    if IsBlockToken(s[k..]) {
      var pre, post := AroundTrim(s[k..]);
      var c := Text.Trim(s[k..]);
      var front := s[..k] + pre + c;
      assert s == s[..k] + s[k..];
      assert s == front + post;
      Text.TrimEndSkips(front, post);
      assert front[|front| - 1] == c[|c| - 1] == '}';
      assert front[|front| - 2..] == c[|c| - 2..];
      EndStays(front);
    }
  }

  lemma EndStays(s: string)
    requires s != [] && s[|s| - 1] == '}'
    ensures Text.TrimEnd(s) == s
  {}

  lemma {:induction false} NoTrailingBlock(s: string, k: nat)
    requires k <= |s| && !EndsInBraces(s)
    ensures TrailingBlock(s[k..]) == |s| - k
    decreases |s| - k
  {
    hide IsBlockToken, EndsInBraces;
    TailIsNoToken(s, k);
    if k < |s| {
      NoTrailingBlock(s, k + 1);
      assert s[k..][1..] == s[k + 1..];
    }
  }

  /** A list item is peeled of its indentation, its mark and the space after it, and of nothing else. */
  lemma PeelsItem(indent: string, mark: string, gap: string, text: string)
    requires Text.AllSpace(indent) && IsMark(mark) && gap != [] && Text.AllSpace(gap) && text != [] && !Text.IsSpace(text[0])
    requires !EndsInBraces(indent + (mark + (gap + text)))
    ensures Peel(indent + (mark + (gap + text))) == Peeled(indent + mark + gap, text, "")
  {
    hide EndsInBraces, TrailingBlock, Marker, LeadingLength, IsMark;
    var rest := mark + (gap + text);
    var line := indent + rest;
    MarkIsVisible(mark);
    NoTrailingBlock(line, 0);
    assert line[0..] == line && line[..|line|] == line && TrailingStart(line) == |line|;
    NoLeadingBlock(indent, rest);
    MarkerReads(indent, mark, gap, text);
    assert line == indent + mark + gap + text;
  }

  /** A block token: white space, two braces, anything without a closing brace, two braces, white space. */
  lemma TokenExactly(t: string)
    ensures IsBlockToken(t) <==> exists pre, body, post ::
      Text.AllSpace(pre) && Text.AllSpace(post) && '}' !in body && t == pre + ("{{" + (body + ("}}" + post)))
  {
    hide Text.IsSpace, Text.TrimStart, Text.TrimEnd, Text.Trim;
    if IsBlockToken(t) {
      var pre, post := AroundTrim(t);
      var c := Text.Trim(t);
      var body := c[2..|c| - 2];
      assert c == "{{" + (body + "}}");
      assert t == pre + ("{{" + (body + ("}}" + post)));
    }
    if pre, body, post :| Text.AllSpace(pre) && Text.AllSpace(post) && '}' !in body && t == pre + ("{{" + (body + ("}}" + post))) {
      TokenIs(t, pre, body, post);
    }
  }

  lemma TokenIs(t: string, pre: string, body: string, post: string)
    requires Text.AllSpace(pre) && Text.AllSpace(post) && '}' !in body && t == pre + ("{{" + (body + ("}}" + post)))
    ensures IsBlockToken(t)
  {
    hide Text.TrimEnd, Text.TrimStart;
    var c := "{{" + (body + "}}");
    assert t == pre + (c + post);
    TrimKeepsFront(pre, c + post);
    Text.TrimEndSkips(c, post);
    EndStays(c);
    assert c[2..|c| - 2] == body;
  }
}
