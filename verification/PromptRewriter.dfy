/** The prompt rewriter: what it leaves alone, and what it accepts from the model
    (scripts/rewrite-system-prompt.ts:95-125, 154-232, 283-342, 400-455). The model is any
    source of replies; so is the classifier that calls a line structural. */
module PromptRewriter {
  import opened Basics
  import opened ChangelogText
  import opened ConcurrentMap
  import Lists
  import Text

  // ----------------------------------------------------------------- peeling

  /** `\s*\{\{[^}]*\}\}\s*`, all of `t` */
  predicate IsBlockToken(t: string) {
    var c := Text.Trim(t);
    |c| >= 4 && "{{" <= c && c[|c| - 2..] == "}}" && '}' !in c[2..|c| - 2]
  }

  /** Where the longest block token that ends `s` begins, or its length. */
  function TrailingBlock(s: string): (k: nat)
    ensures k <= |s|
  {
    if s == [] || IsBlockToken(s) then 0 else 1 + TrailingBlock(s[1..])
  }

  /** The length of the block token in front of `s`, or 0. */
  function LeadingBlock(s: string): (k: nat)
    ensures k <= |s|
  {
    var t := Text.TrimStart(s);
    if !("{{" <= t) then 0
    else
      var rest := t[2 + UpTo('}', t[2..])..];
      if !("}}" <= rest) then 0 else |s| - |Text.TrimStart(rest[2..])|
  }

  /** The length of a list marker in front of `s`: a bullet, or digits and a dot, and space. */
  function Marker(s: string): (k: nat)
    ensures k <= |s|
  {
    var t := Text.TrimStart(s);
    var d := DigitCount(t);
    var after := if t != [] && t[0] in "-*+" then t[1..] else if 0 < d < |t| && t[d] == '.' then t[d + 1..] else [];
    if after == [] || !Text.IsSpace(after[0]) then 0 else |s| - |Text.TrimStart(after)|
  }

  function DigitCount(s: string): (k: nat)
    ensures k <= |s|
  {
    if s == [] || !('0' <= s[0] <= '9') then 0 else 1 + DigitCount(s[1..])
  }

  /** Where the block tokens at the end of `s` begin. */
  function TrailingStart(s: string): (t: nat)
    ensures t <= |s|
    decreases |s|
  {
    var k := TrailingBlock(s);
    if k < |s| then TrailingStart(s[..k]) else |s|
  }

  /** How much of `s` the block tokens in front of it take up. */
  function LeadingLength(s: string): (n: nat)
    ensures n <= |s|
    decreases |s|
  {
    var k := LeadingBlock(s);
    if k > 0 then k + LeadingLength(s[k..]) else 0
  }

  datatype Peeled = Peeled(prefix: string, core: string, suffix: string)

  function Peel(line: string): Peeled {
    var t := TrailingStart(line);
    var n := LeadingLength(line[..t]);
    var m := n + Marker(line[..t][n..]);
    Peeled(line[..m], line[m..t], line[t..])
  }

  /** Peeling loses nothing. */
  lemma PeelLossless(line: string)
    ensures Peel(line).prefix + Peel(line).core + Peel(line).suffix == line
  {
    hide TrailingStart, LeadingLength, Marker;
    var t := TrailingStart(line);
    var n := LeadingLength(line[..t]);
    InThree(line, n + Marker(line[..t][n..]), t);
  }

  lemma InThree<T>(s: seq<T>, m: nat, t: nat)
    requires m <= t <= |s|
    ensures s[..m] + s[m..t] + s[t..] == s
  {}

  method StripTrailing(line: string) returns (s: string, suffix: string)
    ensures s == line[..TrailingStart(line)] && suffix == line[TrailingStart(line)..]
  {
    hide TrailingBlock;
    s, suffix := line, "";
    while TrailingBlock(s) < |s|
      invariant |s| <= |line| && s == line[..|s|] && suffix == line[|s|..] && TrailingStart(line) == TrailingStart(s)
      decreases |s|
    {
      var k := TrailingBlock(s);
      suffix := s[k..] + suffix;
      s := s[..k];
    }
  }

  method StripLeading(line: string) returns (s: string, prefix: string)
    ensures s == line[LeadingLength(line)..] && prefix == line[..LeadingLength(line)]
  {
    hide LeadingBlock;
    s, prefix := line, "";
    ghost var n := 0;
    while LeadingBlock(s) > 0
      invariant n <= |line| && s == line[n..] && prefix == line[..n] && LeadingLength(line) == n + LeadingLength(s)
      decreases |s|
    {
      var k := LeadingBlock(s);
      prefix := prefix + s[..k];
      s := s[k..];
      n := n + k;
    }
  }

  /** `peel` */
  method PeelLine(line: string) returns (prefix: string, core: string, suffix: string)
    ensures Peeled(prefix, core, suffix) == Peel(line)
    ensures prefix + core + suffix == line
  {
    hide TrailingStart, LeadingLength, Marker;
    PeelLossless(line);
    var a, b: string;
    a, suffix := StripTrailing(line);
    b, prefix := StripLeading(a);
    var k := Marker(b);
    prefix, core := prefix + b[..k], b[k..];
  }

  // --------------------------------------------------------- structural blocks

  predicate IsRule(line: string) {
    Text.Trim(line) == "---"
  }

  /** The character of the code fence a line begins or ends, if it does. */
  function Fence(line: string): Option<char> {
    var t := Text.Trim(line);
    if "```" <= t then Some('`') else if "~~~" <= t then Some('~') else None
  }

  /** Lines kept because they lie in a fenced block, the fences included. */
  function FenceMask(lines: Lines, open: Option<char>): (mask: seq<bool>)
    ensures |mask| == |lines|
    decreases |lines|
  {
    if lines == [] then []
    else if open.None? then [Fence(lines[0]).Some?] + FenceMask(lines[1..], Fence(lines[0]))
    else [true] + FenceMask(lines[1..], if Fence(lines[0]) == open then None else open)
  }

  /** The number of lines of a closed frontmatter block at the top. */
  function FrontMatter(lines: Lines): (k: nat)
    ensures k <= |lines|
  {
    if lines == [] || !IsRule(lines[0]) then 0
    else
      var k := Lists.Ahead(IsRule, lines[1..]);
      if k == |lines| - 1 then 0 else k + 2
  }

  function SkipMask(lines: Lines): (mask: seq<bool>)
    ensures |mask| == |lines|
  {
    var k := FrontMatter(lines);
    seq(k, i => true) + FenceMask(lines[k..], None)
  }

  /** What a line adds to the mask, and the fence open after it. */
  function FenceStep(line: string, open: Option<char>): (bool, Option<char>) {
    if open.None? then (Fence(line).Some?, Fence(line))
    else (true, if Fence(line) == open then None else open)
  }

  lemma FenceMaskStep(lines: Lines, i: nat, open: Option<char>)
    requires i < |lines|
    ensures FenceMask(lines[i..], open) == [FenceStep(lines[i], open).0] + FenceMask(lines[i + 1..], FenceStep(lines[i], open).1)
  {
    hide Fence;
    assert lines[i..][0] == lines[i] && lines[i..][1..] == lines[i + 1..];
  }

  /** Marks the fenced blocks from line `start` on. */
  method MarkFences(skip: array<bool>, lines: Lines, start: nat)
    requires skip.Length == |lines| && start <= |lines| && forall k :: start <= k < |lines| ==> !skip[k]
    modifies skip
    ensures skip[..] == old(skip[..start]) + FenceMask(lines[start..], None)
  {
    hide Fence, FenceMask;
    ghost var kept := skip[..start];
    var fence: Option<char> := None;
    for i := start to |lines|
      invariant forall k :: i <= k < |lines| ==> !skip[k]
      invariant kept + FenceMask(lines[start..], None) == skip[..i] + FenceMask(lines[i..], fence)
    {
      ghost var open, before := fence, skip[..i];
      FenceMaskStep(lines, i, fence);
      var m := Fence(lines[i]);
      if fence.None? {
        if m.Some? {
          fence := m;
          skip[i] := true;
        }
      } else {
        skip[i] := true;
        if m == fence {
          fence := None;
        }
      }
      assert skip[..i + 1] == before + [FenceStep(lines[i], open).0];
      assert before + ([FenceStep(lines[i], open).0] + FenceMask(lines[i + 1..], fence)) == skip[..i + 1] + FenceMask(lines[i + 1..], fence);
    }
    assert lines[|lines|..] == [] && FenceMask([], fence) == [];
    assert skip[..] == skip[..|lines|] + [];
  }

  /** `blockSkipMask` */
  method BlockSkipMask(lines: Lines) returns (skip: array<bool>)
    ensures fresh(skip) && skip[..] == SkipMask(lines)
  {
    hide IsRule, FenceMask;
    skip := new bool[|lines|](i => false);
    var start := 0;
    if |lines| > 0 && IsRule(lines[0]) {
      var close := 1 + Lists.Ahead(IsRule, lines[1..]);
      if close < |lines| {
        for k := 0 to close + 1
          invariant forall i :: 0 <= i < k ==> skip[i]
          invariant forall i :: k <= i < |lines| ==> !skip[i]
        {
          skip[k] := true;
        }
        start := close + 1;
      }
    }
    assert skip[..start] == seq(start, i => true);
    MarkFences(skip, lines, start);
  }

  // ------------------------------------------------------------------ the plan

  /** What decides that a line is structural, and which parts of a text are fragile tokens. */
  datatype Classifier = Classifier(verbatim: string -> bool, tokens: string -> seq<string>)

  datatype Prose = Prose(lineIndex: nat, prefix: string, core: string, suffix: string, tokens: seq<string>) {
    function Line(text: string): string { prefix + text + suffix }
  }

  predicate IsProse(c: Classifier, line: string, skip: bool) {
    !skip && !c.verbatim(line) && Text.Trim(Peel(line).core) != []
  }

  function ProseOf(c: Classifier, line: string, i: nat): Prose {
    var p := Peel(line);
    Prose(i, p.prefix, p.core, p.suffix, c.tokens(p.core))
  }

  function ProseFrom(c: Classifier, lines: Lines, mask: seq<bool>, i: nat): seq<Prose>
    requires |mask| == |lines| && i <= |lines|
    decreases |lines| - i
  {
    if i == |lines| then []
    else (if IsProse(c, lines[i], mask[i]) then [ProseOf(c, lines[i], i)] else []) + ProseFrom(c, lines, mask, i + 1)
  }

  /** `planRewrite`: the prose entries of the lines. */
  function Plan(c: Classifier, lines: Lines): seq<Prose> {
    ProseFrom(c, lines, SkipMask(lines), 0)
  }

  /** The entry is the peeled form of a prose line. */
  ghost predicate EntryOk(c: Classifier, lines: Lines, mask: seq<bool>, e: Prose)
    requires |mask| == |lines|
  {
    var k := e.lineIndex;
    k < |lines| && IsProse(c, lines[k], mask[k]) && e == ProseOf(c, lines[k], k)
  }

  /** Entries of prose lines, in line order. */
  ghost predicate PlanOk(c: Classifier, lines: Lines, mask: seq<bool>, prose: seq<Prose>)
    requires |mask| == |lines|
  {
    && (forall e :: 0 <= e < |prose| ==> EntryOk(c, lines, mask, prose[e]))
    && (forall e, f :: 0 <= e < f < |prose| ==> prose[e].lineIndex < prose[f].lineIndex)
  }

  /** An entry rebuilds its line from its core. */
  lemma EntryRebuilds(c: Classifier, lines: Lines, mask: seq<bool>, e: Prose)
    requires |mask| == |lines| && EntryOk(c, lines, mask, e)
    ensures e.Line(e.core) == lines[e.lineIndex]
  {
    hide Peel, IsProse;
    PeelLossless(lines[e.lineIndex]);
  }

  lemma {:induction false} ProseFromOk(c: Classifier, lines: Lines, mask: seq<bool>, i: nat)
    requires |mask| == |lines| && i <= |lines|
    ensures PlanOk(c, lines, mask, ProseFrom(c, lines, mask, i))
    ensures forall e :: 0 <= e < |ProseFrom(c, lines, mask, i)| ==> i <= ProseFrom(c, lines, mask, i)[e].lineIndex
    decreases |lines| - i
  {
    hide Peel, IsProse;
    if i < |lines| {
      ProseFromOk(c, lines, mask, i + 1);
    }
  }

  lemma {:induction false} ProseFromMember(c: Classifier, lines: Lines, mask: seq<bool>, i: nat, k: nat)
    requires |mask| == |lines| && i <= k < |lines|
    ensures IsProse(c, lines[k], mask[k]) <==> exists e :: 0 <= e < |ProseFrom(c, lines, mask, i)| && ProseFrom(c, lines, mask, i)[e].lineIndex == k
    decreases |lines| - i
  {
    hide Peel, IsProse;
    var all, rest := ProseFrom(c, lines, mask, i), ProseFrom(c, lines, mask, i + 1);
    ProseFromOk(c, lines, mask, i + 1);
    var head := if IsProse(c, lines[i], mask[i]) then [ProseOf(c, lines[i], i)] else [];
    assert all == head + rest;
    if i == k {
      assert head != [] ==> all[0].lineIndex == k;
    } else {
      ProseFromMember(c, lines, mask, i + 1, k);
      if IsProse(c, lines[k], mask[k]) {
        var e :| 0 <= e < |rest| && rest[e].lineIndex == k;
        assert all[|head| + e] == rest[e];
      }
    }
  }

  /** `planRewrite` */
  method PlanRewrite(c: Classifier, lines: Lines) returns (prose: seq<Prose>)
    ensures prose == Plan(c, lines) && PlanOk(c, lines, SkipMask(lines), prose)
  {
    hide SkipMask, Peel, IsProse, PlanOk, ProseFrom, ProseOf, Text.Trim;
    var skip := BlockSkipMask(lines);
    var mask := skip[..];
    prose := [];
    NoMoreProse(c, lines, mask);
    for i := 0 to |lines|
      invariant Plan(c, lines) == prose + ProseFrom(c, lines, mask, i)
    {
      ProseStep(c, lines, mask, i);
      if mask[i] || c.verbatim(lines[i]) {
        NotProse(c, lines[i], mask[i]);
        continue;
      }
      var prefix, core, suffix := PeelLine(lines[i]);
      PeeledProse(c, lines[i], i, prefix, core, suffix);
      if Text.Trim(core) != [] {
        prose := prose + [Prose(i, prefix, core, suffix, c.tokens(core))];
      }
    }
    assert prose + [] == prose;
    PlanIsOk(c, lines);
  }

  lemma NotProse(c: Classifier, line: string, skip: bool)
    requires skip || c.verbatim(line)
    ensures !IsProse(c, line, skip)
  {}

  lemma PeeledProse(c: Classifier, line: string, i: nat, prefix: string, core: string, suffix: string)
    requires !c.verbatim(line) && Peeled(prefix, core, suffix) == Peel(line)
    ensures IsProse(c, line, false) <==> Text.Trim(core) != []
    ensures ProseOf(c, line, i) == Prose(i, prefix, core, suffix, c.tokens(core))
  {
    hide Peel, Text.Trim;
  }

  lemma NoMoreProse(c: Classifier, lines: Lines, mask: seq<bool>)
    requires |mask| == |lines|
    ensures ProseFrom(c, lines, mask, |lines|) == []
  {}

  lemma ProseStep(c: Classifier, lines: Lines, mask: seq<bool>, i: nat)
    requires |mask| == |lines| && i < |lines|
    ensures ProseFrom(c, lines, mask, i) == if IsProse(c, lines[i], mask[i]) then [ProseOf(c, lines[i], i)] + ProseFrom(c, lines, mask, i + 1) else ProseFrom(c, lines, mask, i + 1)
  {
    hide IsProse, ProseOf;
    assert [] + ProseFrom(c, lines, mask, i + 1) == ProseFrom(c, lines, mask, i + 1);
  }

  // ------------------------------------------------------------------- groups

  function Step(size: int): (k: nat)
    ensures k >= 1
  {
    if size < 1 then 1 else size
  }

  /** `chunk` */
  function Groups<T>(items: seq<T>, size: int): seq<seq<T>>
    decreases |items|
  {
    if items == [] then []
    else if |items| <= Step(size) then [items]
    else [items[..Step(size)]] + Groups(items[Step(size)..], size)
  }

  /** Grouping keeps every item, in order, in groups of the given size but the last. */
  lemma {:induction false} GroupsPartition<T>(items: seq<T>, size: int)
    ensures Lists.Flatten(Groups(items, size)) == items
    ensures forall g :: 0 <= g < |Groups(items, size)| ==> 1 <= |Groups(items, size)[g]| <= Step(size)
    ensures forall g :: 0 <= g < |Groups(items, size)| - 1 ==> |Groups(items, size)[g]| == Step(size)
    decreases |items|
  {
    if |items| > Step(size) {
      GroupsPartition(items[Step(size)..], size);
      assert items == items[..Step(size)] + items[Step(size)..];
    } else if items != [] {
      assert Lists.Flatten([items]) == items;
    }
  }

  /** `chunk` */
  method Chunk<T>(items: seq<T>, size: int) returns (groups: seq<seq<T>>)
    ensures groups == Groups(items, size)
  {
    groups := [];
    var step := Step(size);
    var i := 0;
    while i < |items|
      invariant 0 <= i && (i <= |items| ==> Groups(items, size) == groups + Groups(items[i..], size))
      invariant i > |items| ==> Groups(items, size) == groups
      decreases |items| - i
    {
      var end := if i + step < |items| then i + step else |items|;
      GroupsStep(items[i..], size);
      assert items[i..][..end - i] == items[i..end];
      groups := groups + [items[i..end]];
      i := i + step;
    }
  }

  lemma GroupsStep<T>(items: seq<T>, size: int)
    requires items != []
    ensures var k := if Step(size) < |items| then Step(size) else |items|;
      Groups(items, size) == [items[..k]] + Groups(items[k..], size)
  {
    if |items| <= Step(size) {
      assert items[|items|..] == [];
      assert items[..|items|] == items;
    }
  }

  // ------------------------------------------------------------- fragile tokens

  /** `s.split(tok).length - 1` */
  function Occurs(s: string, tok: string): int
    decreases |s|
  {
    if tok == [] then |s| - 1
    else if |s| < |tok| then 0
    else if tok <= s then 1 + Occurs(s[|tok|..], tok)
    else Occurs(s[1..], tok)
  }

  /** Every token is there as often as it was. */
  ghost predicate Preserves(text: string, tokens: seq<string>) {
    forall tok :: tok in tokens ==> multiset(tokens)[tok] <= Occurs(text, tok)
  }

  /** `preservesTokens` */
  method PreservesTokens(rewritten: string, tokens: seq<string>) returns (ok: bool)
    ensures ok <==> Preserves(rewritten, tokens)
  {
    hide Occurs;
    var want: map<string, nat> := map[];
    for i := 0 to |tokens|
      invariant forall tok :: tok in want <==> tok in tokens[..i]
      invariant forall tok :: tok in want ==> want[tok] == multiset(tokens[..i])[tok]
    {
      assert tokens[..i + 1] == tokens[..i] + [tokens[i]];
      want := want[tokens[i] := (if tokens[i] in want then want[tokens[i]] else 0) + 1];
    }
    assert tokens[..|tokens|] == tokens;
    var todo := want.Keys;
    while todo != {}
      invariant todo <= want.Keys
      invariant forall tok :: tok in want.Keys - todo ==> want[tok] <= Occurs(rewritten, tok)
      decreases |todo|
    {
      var tok :| tok in todo;
      if Occurs(rewritten, tok) < want[tok] {
        assert tok in tokens;
        return false;
      }
      todo := todo - {tok};
    }
    return true;
  }

  // ---------------------------------------------------------------- acceptance

  datatype Item = Item(id: nat, text: string, tokens: seq<string>)

  /** The model's answer to one attempt: texts by id, or an error. */
  type Reply = Option<map<nat, string>>

  ghost predicate Good(item: Item, reply: Reply) {
    reply.Some? && item.id in reply.value && Preserves(reply.value[item.id], item.tokens)
  }

  /** The text of the first of `n` answers that keeps every token of the item. */
  ghost function FirstGood(item: Item, replies: seq<Reply>, n: nat): Option<string>
    requires n <= |replies|
  {
    if n == 0 then None
    else
      var before := FirstGood(item, replies, n - 1);
      if before.Some? then before
      else if Good(item, replies[n - 1]) then Some(replies[n - 1].value[item.id])
      else None
  }

  ghost predicate UniqueIds(items: seq<Item>) {
    forall i, j :: 0 <= i < j < |items| ==> items[i].id != items[j].id
  }

  /** The item has its first good text, or waits. */
  ghost predicate SettledItem(item: Item, replies: seq<Reply>, n: nat, result: map<nat, string>, pending: seq<Item>)
    requires n <= |replies|
  {
    match FirstGood(item, replies, n)
    case Some(text) => item.id in result && result[item.id] == text && item !in pending
    case None => item.id !in result && item in pending
  }

  /** After `n` attempts each item is settled, and nothing else is in play. */
  ghost predicate AcceptedAfter(items: seq<Item>, replies: seq<Reply>, n: nat, result: map<nat, string>, pending: seq<Item>)
    requires n <= |replies|
  {
    && (forall i :: 0 <= i < |items| ==> SettledItem(items[i], replies, n, result, pending))
    && (forall id :: id in result ==> exists i :: 0 <= i < |items| && items[i].id == id)
    && (forall i :: 0 <= i < |pending| ==> pending[i] in items)
  }

  /** One attempt: the good answers are taken, the other items wait on. */
  ghost predicate Taken(pending: seq<Item>, result: map<nat, string>, reply: Reply, still: seq<Item>, taken: map<nat, string>) {
    && UniqueIds(still)
    && (forall p :: p in still <==> p in pending && !Good(p, reply))
    && (forall p :: p in pending && Good(p, reply) ==> p.id in taken && taken[p.id] == reply.value[p.id])
    && (forall id :: id in result && (forall p :: p in pending ==> p.id != id) ==> id in taken && taken[id] == result[id])
    && (forall id :: id in taken ==> id in result || exists p :: p in pending && p.id == id && Good(p, reply))
  }

  method TakeGood(pending: seq<Item>, result: map<nat, string>, reply: Reply) returns (still: seq<Item>, taken: map<nat, string>)
    requires UniqueIds(pending)
    ensures Taken(pending, result, reply, still, taken)
  {
    hide Preserves;
    still, taken := [], result;
    if reply.None? {
      return pending, result;
    }
    for j := 0 to |pending|
      invariant UniqueIds(still)
      invariant forall p :: p in still <==> p in pending[..j] && !Good(p, reply)
      invariant forall k :: 0 <= k < j && Good(pending[k], reply) ==> pending[k].id in taken && taken[pending[k].id] == reply.value[pending[k].id]
      invariant forall id :: id in result && (forall k :: 0 <= k < j ==> pending[k].id != id) ==> id in taken && taken[id] == result[id]
      invariant forall id :: id in taken ==> id in result || exists k :: 0 <= k < j && pending[k].id == id && Good(pending[k], reply)
    {
      var p := pending[j];
      var good := false;
      if p.id in reply.value {
        good := PreservesTokens(reply.value[p.id], p.tokens);
      }
      assert pending[..j + 1] == pending[..j] + [p];
      if good {
        taken := taken[p.id := reply.value[p.id]];
      } else {
        NewId(pending, j, still);
        still := still + [p];
      }
    }
    assert pending[..|pending|] == pending;
  }

  lemma NewId(pending: seq<Item>, j: nat, still: seq<Item>)
    requires UniqueIds(pending) && j < |pending| && forall p :: p in still ==> p in pending[..j]
    ensures forall k :: 0 <= k < |still| ==> still[k].id != pending[j].id
  {
    forall k | 0 <= k < |still| ensures still[k].id != pending[j].id {
      assert still[k] in pending[..j];
      var i :| 0 <= i < j && pending[..j][i] == still[k];
    }
  }

  lemma SameIdSameItem(items: seq<Item>, a: Item, b: Item)
    requires UniqueIds(items) && a in items && b in items && a.id == b.id
    ensures a == b
  {
    var i :| 0 <= i < |items| && items[i] == a;
    var j :| 0 <= j < |items| && items[j] == b;
    assert i == j;
  }

  lemma AcceptedStep(items: seq<Item>, replies: seq<Reply>, n: nat, result: map<nat, string>, pending: seq<Item>, still: seq<Item>, taken: map<nat, string>)
    requires n < |replies| && UniqueIds(items) && AcceptedAfter(items, replies, n, result, pending)
    requires Taken(pending, result, replies[n], still, taken)
    ensures AcceptedAfter(items, replies, n + 1, taken, still)
  {
    hide Good;
    forall i | 0 <= i < |items| ensures SettledItem(items[i], replies, n + 1, taken, still) {
      SettledStep(items, replies, n, result, pending, still, taken, items[i]);
    }
    forall id | id in taken ensures exists i :: 0 <= i < |items| && items[i].id == id {
      if id !in result {
        var p :| p in pending && p.id == id;
        assert p in items;
      }
    }
    forall k | 0 <= k < |still| ensures still[k] in items {
      assert still[k] in pending;
      var j :| 0 <= j < |pending| && pending[j] == still[k];
    }
  }

  lemma SettledStep(items: seq<Item>, replies: seq<Reply>, n: nat, result: map<nat, string>, pending: seq<Item>, still: seq<Item>, taken: map<nat, string>, item: Item)
    requires n < |replies| && UniqueIds(items) && AcceptedAfter(items, replies, n, result, pending) && item in items
    requires Taken(pending, result, replies[n], still, taken)
    ensures SettledItem(item, replies, n + 1, taken, still)
  {
    hide Good;
    assert SettledItem(item, replies, n, result, pending);
    forall p | p in pending && p.id == item.id ensures p == item {
      assert p in items;
      SameIdSameItem(items, p, item);
    }
    if FirstGood(item, replies, n).Some? {
      assert forall p :: p in pending ==> p.id != item.id;
      assert item.id in taken && taken[item.id] == result[item.id];
    } else if Good(item, replies[n]) {
      assert item.id in taken;
    } else {
      assert item in still;
      assert forall p :: p in pending && p.id == item.id ==> p == item && !Good(p, replies[n]);
      assert item.id !in taken;
    }
  }

  lemma {:induction false} FirstGoodStays(item: Item, replies: seq<Reply>, n: nat)
    requires n <= |replies| && FirstGood(item, replies, n).Some?
    ensures FirstGood(item, replies, |replies|) == FirstGood(item, replies, n)
    decreases |replies| - n
  {
    if n < |replies| {
      FirstGoodStays(item, replies, n + 1);
    }
  }

  /** `makeOpenRouterRewriter`, with what the model would answer to each of the attempts: an item
      gets the first answer that keeps all its tokens, and nothing if there is none. */
  method AcceptRewrites(items: seq<Item>, replies: seq<Reply>) returns (result: map<nat, string>)
    requires UniqueIds(items)
    ensures forall i :: 0 <= i < |items| ==>
      FirstGood(items[i], replies, |replies|) == (if items[i].id in result then Some(result[items[i].id]) else None)
    ensures forall id :: id in result ==> exists i :: 0 <= i < |items| && items[i].id == id
  {
    hide Good, Taken;
    result := map[];
    var pending := items;
    var attempt := 0;
    while attempt < |replies| && |pending| > 0
      invariant attempt <= |replies| && UniqueIds(pending) && AcceptedAfter(items, replies, attempt, result, pending)
      decreases |replies| - attempt
    {
      var still, taken := TakeGood(pending, result, replies[attempt]);
      AcceptedStep(items, replies, attempt, result, pending, still, taken);
      TakenUnique(pending, result, replies[attempt], still, taken);
      pending, result := still, taken;
      attempt := attempt + 1;
    }
    forall i | 0 <= i < |items|
      ensures FirstGood(items[i], replies, |replies|) == (if items[i].id in result then Some(result[items[i].id]) else None)
    {
      assert SettledItem(items[i], replies, attempt, result, pending);
      if FirstGood(items[i], replies, attempt).Some? {
        FirstGoodStays(items[i], replies, attempt);
      }
    }
  }

  lemma TakenUnique(pending: seq<Item>, result: map<nat, string>, reply: Reply, still: seq<Item>, taken: map<nat, string>)
    requires Taken(pending, result, reply, still, taken)
    ensures UniqueIds(still)
  {}

  // --------------------------------------------------------------- the whole file

  datatype Resolved = Resolved(entry: Prose, text: string, ok: bool) {
    function Line(): string { entry.Line(text) }
  }

  /** What the callback makes of one group and its reply; a failed call replies nothing. */
  function ResolveEntry(e: Prose, reply: map<nat, string>): Resolved {
    if e.lineIndex in reply then Resolved(e, reply[e.lineIndex], true) else Resolved(e, e.core, false)
  }

  function ResolveGroup(group: seq<Prose>, reply: map<nat, string>): (r: seq<Resolved>)
    ensures |r| == |group| && forall e :: 0 <= e < |group| ==> r[e] == ResolveEntry(group[e], reply)
  {
    seq(|group|, e requires 0 <= e < |group| => ResolveEntry(group[e], reply))
  }

  function ResolveAll(groups: seq<seq<Prose>>, replies: seq<map<nat, string>>): seq<seq<Resolved>>
    requires |groups| == |replies|
  {
    if groups == [] then [] else [ResolveGroup(groups[0], replies[0])] + ResolveAll(groups[1..], replies[1..])
  }

  /** The calls of the pool: none rejects, because the callback catches. */
  function PoolCalls(groups: seq<seq<Prose>>, replies: seq<map<nat, string>>): (calls: Calls<seq<Resolved>>)
    requires |groups| == |replies|
    ensures |calls| == |groups|
  {
    seq(|groups|, g requires 0 <= g < |groups| => Some(ResolveGroup(groups[g], replies[g])))
  }

  function Apply(lines: Lines, rs: seq<Resolved>): Lines
    decreases |rs|
  {
    if rs == [] then lines
    else Apply(if rs[0].entry.lineIndex < |lines| then lines[rs[0].entry.lineIndex := rs[0].Line()] else lines, rs[1..])
  }

  function ToRewrite(prose: seq<Prose>, limit: int): seq<Prose> {
    if 0 < limit < |prose| then prose[..limit] else prose
  }

  /** The groups that are sent to the model. */
  function Sent(c: Classifier, content: string, size: int, limit: int): seq<seq<Prose>> {
    Groups(ToRewrite(Plan(c, Split(content)), limit), size)
  }

  /** `rewriteAll`, given what the pool returned. */
  function RewrittenLines(content: string, resolved: seq<seq<Resolved>>): Lines {
    Apply(Split(content), Lists.Flatten(resolved))
  }

  lemma {:induction false} ResolveAllIsSequential(groups: seq<seq<Prose>>, replies: seq<map<nat, string>>)
    requires |groups| == |replies|
    ensures Sequentially(PoolCalls(groups, replies)) == Some(ResolveAll(groups, replies))
  {
    hide ResolveGroup;
    if groups != [] {
      ResolveAllIsSequential(groups[1..], replies[1..]);
      assert PoolCalls(groups, replies)[1..] == PoolCalls(groups[1..], replies[1..]);
    }
  }

  /** However the workers interleave, the pool hands back the groups in order, each resolved
      with its own reply, and never an error. */
  lemma AnyInterleavingResolves(groups: seq<seq<Prose>>, replies: seq<map<nat, string>>, concurrency: int, actions: seq<Action>, s: Pool<seq<Resolved>>)
    requires |groups| == |replies|
    requires Reaches(PoolCalls(groups, replies), PoolWidth(concurrency, |groups|), actions, s) && Finished(s)
    ensures Collect(s) == Values(ResolveAll(groups, replies))
  {
    hide PoolCalls, ResolveAll, Reaches, Finished;
    ResolveAllIsSequential(groups, replies);
    ConcurrentIsSequential(PoolCalls(groups, replies), PoolWidth(concurrency, |groups|), actions, s);
  }

  // ------------------------------------------------- what a rewrite can change

  lemma {:induction false} ResolvedEntries(groups: seq<seq<Prose>>, replies: seq<map<nat, string>>)
    requires |groups| == |replies|
    ensures var rs, es := Lists.Flatten(ResolveAll(groups, replies)), Lists.Flatten(groups);
      |rs| == |es| && forall e :: 0 <= e < |es| ==> ResolvedFrom(es[e], rs[e], replies)
  {
    hide ResolveEntry;
    if groups != [] {
      ResolvedEntries(groups[1..], replies[1..]);
      var r0 := ResolveGroup(groups[0], replies[0]);
      var rs, es := Lists.Flatten(ResolveAll(groups[1..], replies[1..])), Lists.Flatten(groups[1..]);
      assert ([r0] + ResolveAll(groups[1..], replies[1..]))[1..] == ResolveAll(groups[1..], replies[1..]);
      forall e | 0 <= e < |groups[0] + es| ensures ResolvedFrom((groups[0] + es)[e], (r0 + rs)[e], replies) {
        if e < |groups[0]| {
          assert ResolvedWith(groups[0][e], r0[e], replies[0]);
        } else {
          var g :| 0 <= g < |replies[1..]| && ResolvedWith(es[e - |groups[0]|], rs[e - |groups[0]|], replies[1..][g]);
          assert ResolvedWith(es[e - |groups[0]|], rs[e - |groups[0]|], replies[g + 1]);
        }
      }
    }
  }

  predicate ResolvedWith(e: Prose, r: Resolved, reply: map<nat, string>) {
    r == ResolveEntry(e, reply)
  }

  /** `r` is the entry as one of the replies resolves it. */
  ghost predicate ResolvedFrom(e: Prose, r: Resolved, replies: seq<map<nat, string>>) {
    exists g :: 0 <= g < |replies| && ResolvedWith(e, r, replies[g])
  }

  ghost predicate Increasing(rs: seq<Resolved>) {
    forall e, f :: 0 <= e < f < |rs| ==> rs[e].entry.lineIndex < rs[f].entry.lineIndex
  }

  /** Applying rewrites sets the line of each entry and leaves the rest. */
  lemma {:induction false} ApplyIs(lines: Lines, rs: seq<Resolved>)
    requires Increasing(rs) && forall e :: 0 <= e < |rs| ==> rs[e].entry.lineIndex < |lines|
    ensures |Apply(lines, rs)| == |lines|
    ensures forall e :: 0 <= e < |rs| ==> Apply(lines, rs)[rs[e].entry.lineIndex] == rs[e].Line()
    ensures forall k :: 0 <= k < |lines| && (forall e :: 0 <= e < |rs| ==> rs[e].entry.lineIndex != k) ==> Apply(lines, rs)[k] == lines[k]
    decreases |rs|
  {
    hide Resolved.Line;
    if rs != [] {
      var next := lines[rs[0].entry.lineIndex := rs[0].Line()];
      var rest := rs[1..];
      ApplyIs(next, rest);
      forall e | 0 <= e < |rs| ensures Apply(lines, rs)[rs[e].entry.lineIndex] == rs[e].Line() {
        if e > 0 {
          assert rest[e - 1] == rs[e];
        }
      }
      forall k | 0 <= k < |lines| && (forall e :: 0 <= e < |rs| ==> rs[e].entry.lineIndex != k) ensures Apply(lines, rs)[k] == lines[k] {
        assert forall e :: 0 <= e < |rest| ==> rest[e] == rs[e + 1];
      }
    }
  }

  lemma LimitedOk(c: Classifier, lines: Lines, prose: seq<Prose>, limit: int)
    requires PlanOk(c, lines, SkipMask(lines), prose)
    ensures PlanOk(c, lines, SkipMask(lines), ToRewrite(prose, limit))
  {
    hide EntryOk;
  }

  lemma PlanIsOk(c: Classifier, lines: Lines)
    ensures PlanOk(c, lines, SkipMask(lines), Plan(c, lines))
  {
    ProseFromOk(c, lines, SkipMask(lines), 0);
  }

  /** The entries sent to the model, resolved: in line order, each on its own line. */
  ghost predicate Aligned(c: Classifier, lines: Lines, es: seq<Prose>, rs: seq<Resolved>, replies: seq<map<nat, string>>) {
    && PlanOk(c, lines, SkipMask(lines), es) && |rs| == |es|
    && (forall e :: 0 <= e < |es| ==> ResolvedFrom(es[e], rs[e], replies))
  }

  lemma SentResolved(c: Classifier, content: string, size: int, limit: int, replies: seq<map<nat, string>>)
    requires |replies| == |Sent(c, content, size, limit)|
    ensures Aligned(c, Split(content), ToRewrite(Plan(c, Split(content)), limit), Lists.Flatten(ResolveAll(Sent(c, content, size, limit), replies)), replies)
  {
    hide Plan, Split, PlanOk, Groups, ResolveAll, ResolvedFrom, SkipMask;
    var es := ToRewrite(Plan(c, Split(content)), limit);
    PlanIsOk(c, Split(content));
    LimitedOk(c, Split(content), Plan(c, Split(content)), limit);
    GroupsPartition(es, size);
    ResolvedEntries(Groups(es, size), replies);
  }

  /** One of the replies gives `text` for line `k`. */
  ghost predicate Replied(replies: seq<map<nat, string>>, k: nat, text: string) {
    exists g :: 0 <= g < |replies| && k in replies[g] && replies[g][k] == text
  }

  /** What a rewrite can do to line `k`: nothing; or, when the line is prose, put a text that one
      of the replies gives for it between the same prefix and suffix. */
  ghost predicate LineKept(c: Classifier, lines: Lines, out: Lines, replies: seq<map<nat, string>>, k: nat)
    requires k < |lines| == |out|
  {
    || out[k] == lines[k]
    || (IsProse(c, lines[k], SkipMask(lines)[k])
        && exists text :: Replied(replies, k, text) && out[k] == Peel(lines[k]).prefix + text + Peel(lines[k]).suffix)
  }

  lemma EntryKept(c: Classifier, lines: Lines, out: Lines, replies: seq<map<nat, string>>, e: Prose, r: Resolved)
    requires |out| == |lines| && EntryOk(c, lines, SkipMask(lines), e) && ResolvedFrom(e, r, replies)
    requires out[e.lineIndex] == r.Line()
    ensures LineKept(c, lines, out, replies, e.lineIndex)
  {
    hide Peel, IsProse, SkipMask;
    EntryRebuilds(c, lines, SkipMask(lines), e);
    var g :| 0 <= g < |replies| && ResolvedWith(e, r, replies[g]);
    if r.ok {
      assert Replied(replies, e.lineIndex, r.text);
    }
  }

  lemma AllKept(c: Classifier, lines: Lines, es: seq<Prose>, rs: seq<Resolved>, replies: seq<map<nat, string>>)
    requires Aligned(c, lines, es, rs, replies)
    ensures |Apply(lines, rs)| == |lines|
    ensures forall k :: 0 <= k < |lines| ==> LineKept(c, lines, Apply(lines, rs), replies, k)
  {
    hide IsProse, SkipMask, LineKept, EntryOk, Apply, Resolved.Line, ResolvedFrom;
    forall e | 0 <= e < |es| ensures rs[e].entry == es[e] && es[e].lineIndex < |lines| {
      SameEntry(es[e], rs[e], replies);
      EntryInRange(c, lines, es[e]);
    }
    ApplyIs(lines, rs);
    forall k | 0 <= k < |lines| ensures LineKept(c, lines, Apply(lines, rs), replies, k) {
      if e :| 0 <= e < |rs| && rs[e].entry.lineIndex == k {
        EntryKept(c, lines, Apply(lines, rs), replies, es[e], rs[e]);
      } else {
        SameLineKept(c, lines, Apply(lines, rs), replies, k);
      }
    }
  }

  lemma SameLineKept(c: Classifier, lines: Lines, out: Lines, replies: seq<map<nat, string>>, k: nat)
    requires k < |lines| == |out| && out[k] == lines[k]
    ensures LineKept(c, lines, out, replies, k)
  {}

  lemma SameEntry(e: Prose, r: Resolved, replies: seq<map<nat, string>>)
    requires ResolvedFrom(e, r, replies)
    ensures r.entry == e
  {}

  lemma EntryInRange(c: Classifier, lines: Lines, e: Prose)
    requires EntryOk(c, lines, SkipMask(lines), e)
    ensures e.lineIndex < |lines|
  {}

  /** `rewriteAll` changes a line only if it is prose and a reply has a text for it, and then
      only between its prefix and its suffix. */
  lemma RewriteKeepsTheRest(c: Classifier, content: string, size: int, limit: int, replies: seq<map<nat, string>>)
    requires |replies| == |Sent(c, content, size, limit)|
    ensures var lines, out := Split(content), RewrittenLines(content, ResolveAll(Sent(c, content, size, limit), replies));
      |out| == |lines| && forall k :: 0 <= k < |lines| ==> LineKept(c, lines, out, replies, k)
  {
    hide LineKept, Aligned, Sent, Apply, Split, ResolveAll;
    SentResolved(c, content, size, limit, replies);
    AllKept(c, Split(content), ToRewrite(Plan(c, Split(content)), limit), Lists.Flatten(ResolveAll(Sent(c, content, size, limit), replies)), replies);
  }

  lemma {:induction false} JoinSplit(s: string)
    ensures Join(Split(s)) == s
    decreases |s|
  {
    var k := UpTo('\n', s);
    if k < |s| {
      var rest := s[k + 1..];
      JoinSplit(rest);
      JoinCons(s[..k], Split(rest));
      assert s == s[..k] + "\n" + rest;
    }
  }

  lemma JoinCons(line: string, rest: Lines)
    requires rest != []
    ensures Join([line] + rest) == line + "\n" + Join(rest)
  {
    assert ([line] + rest)[1..] == rest;
  }

  /** When every call fails, the file comes back as it was. */
  lemma AllFailedIsIdentity(c: Classifier, content: string, size: int, limit: int, replies: seq<map<nat, string>>)
    requires |replies| == |Sent(c, content, size, limit)| && forall g :: 0 <= g < |replies| ==> replies[g] == map[]
    ensures Join(RewrittenLines(content, ResolveAll(Sent(c, content, size, limit), replies))) == content
  {
    hide Split, RewrittenLines, ResolveAll, Sent, IsProse, Peel;
    RewriteKeepsTheRest(c, content, size, limit, replies);
    var lines, out := Split(content), RewrittenLines(content, ResolveAll(Sent(c, content, size, limit), replies));
    forall k | 0 <= k < |lines| ensures out[k] == lines[k] {
      assert LineKept(c, lines, out, replies, k);
      assert forall text :: !Replied(replies, k, text);
    }
    assert out == lines;
    JoinSplit(content);
  }

  // -------------------------------------------------------- with the model's replies

  function ItemOf(e: Prose): Item {
    Item(e.lineIndex, e.core, e.tokens)
  }

  /** The reply to a group is what acceptance makes of the model's answers. */
  ghost predicate FromModel(group: seq<Prose>, answers: seq<Reply>, reply: map<nat, string>) {
    && (forall e :: 0 <= e < |group| ==>
          FirstGood(ItemOf(group[e]), answers, |answers|) == (if group[e].lineIndex in reply then Some(reply[group[e].lineIndex]) else None))
    && (forall id :: id in reply ==> exists e :: 0 <= e < |group| && group[e].lineIndex == id)
  }

  lemma {:induction false} FirstGoodIsGood(item: Item, replies: seq<Reply>, n: nat)
    requires n <= |replies| && FirstGood(item, replies, n).Some?
    ensures Preserves(FirstGood(item, replies, n).value, item.tokens)
  {
    hide Preserves;
    if FirstGood(item, replies, n - 1).Some? {
      FirstGoodIsGood(item, replies, n - 1);
    }
  }

  lemma {:induction false} InFlatten<T>(cs: seq<seq<T>>, g: nat, x: T)
    requires g < |cs| && x in cs[g]
    ensures x in Lists.Flatten(cs)
  {
    if g > 0 {
      InFlatten(cs[1..], g - 1, x);
    }
  }

  /** Whatever the model answers, and however the workers interleave: every line that changes is
      prose, keeps its prefix and suffix, and still has every fragile token of its core. */
  lemma RewriteKeepsTokens(c: Classifier, content: string, size: int, limit: int, answers: seq<seq<Reply>>, replies: seq<map<nat, string>>, k: nat)
    requires |answers| == |replies| == |Sent(c, content, size, limit)| && k < |Split(content)|
    requires forall g :: 0 <= g < |replies| ==> FromModel(Sent(c, content, size, limit)[g], answers[g], replies[g])
    ensures var lines, out := Split(content), RewrittenLines(content, ResolveAll(Sent(c, content, size, limit), replies));
      |out| == |lines| && TokensKept(c, lines[k], out[k])
  {
    hide Split, RewrittenLines, ResolveAll, IsProse, Peel, Preserves, FromModel, Sent, SkipMask;
    RewriteKeepsTheRest(c, content, size, limit, replies);
    var lines, out := Split(content), RewrittenLines(content, ResolveAll(Sent(c, content, size, limit), replies));
    assert LineKept(c, lines, out, replies, k);
    if out[k] != lines[k] {
      var text :| Replied(replies, k, text) && out[k] == Peel(lines[k]).prefix + text + Peel(lines[k]).suffix;
      RepliedKeepsTokens(c, content, size, limit, answers, replies, k, text);
    }
  }

  /** The line is as it was, or a text with all tokens of its core stands in place of the core. */
  ghost predicate TokensKept(c: Classifier, line: string, out: string) {
    out == line || exists text :: out == Peel(line).prefix + text + Peel(line).suffix && Preserves(text, c.tokens(Peel(line).core))
  }

  lemma RepliedKeepsTokens(c: Classifier, content: string, size: int, limit: int, answers: seq<seq<Reply>>, replies: seq<map<nat, string>>, k: nat, text: string)
    requires |answers| == |replies| == |Sent(c, content, size, limit)| && k < |Split(content)|
    requires forall g :: 0 <= g < |replies| ==> FromModel(Sent(c, content, size, limit)[g], answers[g], replies[g])
    requires Replied(replies, k, text)
    ensures Preserves(text, c.tokens(Peel(Split(content)[k]).core))
  {
    hide Split, IsProse, Peel, Preserves, Plan, Groups, SkipMask;
    var g :| 0 <= g < |replies| && k in replies[g] && replies[g][k] == text;
    var group := Sent(c, content, size, limit)[g];
    assert FromModel(group, answers[g], replies[g]);
    var e :| 0 <= e < |group| && group[e].lineIndex == k;
    FirstGoodIsGood(ItemOf(group[e]), answers[g], |answers[g]|);
    var es := ToRewrite(Plan(c, Split(content)), limit);
    GroupsPartition(es, size);
    InFlatten(Sent(c, content, size, limit), g, group[e]);
    PlanIsOk(c, Split(content));
    LimitedOk(c, Split(content), Plan(c, Split(content)), limit);
    var j :| 0 <= j < |es| && es[j] == group[e];
    assert EntryOk(c, Split(content), SkipMask(Split(content)), es[j]);
  }
}
