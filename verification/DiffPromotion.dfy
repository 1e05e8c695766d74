/** Which added bullets of a diff may be promoted (scripts/fix-changelogs.ts:582-705). */
module DiffPromotion {
  import opened Basics
  import opened ChangelogText
  import opened ChangelogFix
  import Text

  datatype HunkRef = HunkRef(path: string, index: int)

  datatype Candidate = Candidate(lineNumber: int, text: string, hunk: HunkRef)

  datatype Removal = Removal(text: string, hunk: HunkRef)

  /** A bullet text in a file, without regard to the spaces around it. */
  datatype ItemKey = ItemKey(path: string, text: string)

  function AddedKey(c: Candidate): ItemKey {
    ItemKey(c.hunk.path, Text.Trim(c.text))
  }

  function RemovedKey(r: Removal): ItemKey {
    ItemKey(r.hunk.path, Text.Trim(r.text))
  }

  function AddedKeys(cs: seq<Candidate>): (ks: seq<ItemKey>)
    ensures |ks| == |cs| && forall i :: 0 <= i < |cs| ==> ks[i] == AddedKey(cs[i])
  {
    seq(|cs|, i requires 0 <= i < |cs| => AddedKey(cs[i]))
  }

  function RemovedKeys(rs: seq<Removal>): (ks: seq<ItemKey>)
    ensures |ks| == |rs| && forall i :: 0 <= i < |rs| ==> ks[i] == RemovedKey(rs[i])
  {
    seq(|rs|, i requires 0 <= i < |rs| => RemovedKey(rs[i]))
  }

  // ----------------------------------------------------------------- pairing

  /** How often `x` occurs among the first `n`. */
  function CountIn<T(==)>(s: seq<T>, n: nat, x: T): (c: nat)
    requires n <= |s|
    ensures c <= n
  {
    if n == 0 then 0 else CountIn(s, n - 1, x) + if s[n - 1] == x then 1 else 0
  }

  /** The k-th occurrence of a text on one side pairs with the k-th on the other. */
  predicate Paired<T(==)>(own: seq<T>, other: seq<T>, i: nat)
    requires i < |own|
  {
    CountIn(own, i, own[i]) < CountIn(other, |other|, own[i])
  }

  function CountPaired<T(==)>(own: seq<T>, other: seq<T>, n: nat, x: T): nat
    requires n <= |own|
  {
    if n == 0 then 0
    else CountPaired(own, other, n - 1, x) + if own[n - 1] == x && Paired(own, other, n - 1) then 1 else 0
  }

  function Min(a: nat, b: nat): nat {
    if a < b then a else b
  }

  lemma {:induction false} PairedUpTo<T>(own: seq<T>, other: seq<T>, n: nat, x: T)
    requires n <= |own|
    ensures CountPaired(own, other, n, x) == Min(CountIn(own, n, x), CountIn(other, |other|, x))
  {
    if n > 0 {
      PairedUpTo(own, other, n - 1, x);
    }
  }

  /** For every file and bullet text, exactly as many occurrences are paired on each side as the
      side with fewer has. */
  lemma PairsExactly(cs: seq<Candidate>, rs: seq<Removal>, key: ItemKey)
    ensures var a, r := AddedKeys(cs), RemovedKeys(rs);
      CountPaired(a, r, |a|, key) == CountPaired(r, a, |r|, key) == Min(CountIn(a, |a|, key), CountIn(r, |r|, key))
  {
    PairedUpTo(AddedKeys(cs), RemovedKeys(rs), |cs|, key);
    PairedUpTo(RemovedKeys(rs), AddedKeys(cs), |rs|, key);
  }

  // --------------------------------------------------------------- promotion

  /** Unpaired entries of one side among its first `n` that lie in hunk `h`; `hunks` says where
      each entry lies. */
  function Unpaired<K(==), H(==)>(own: seq<K>, other: seq<K>, hunks: seq<H>, n: nat, h: H): nat
    requires n <= |own| == |hunks|
  {
    if n == 0 then 0
    else Unpaired(own, other, hunks, n - 1, h) + if hunks[n - 1] == h && !Paired(own, other, n - 1) then 1 else 0
  }

  /** Additions and removals: their texts, and their hunks. */
  datatype Diff<K, H> = Diff(added: seq<K>, addedIn: seq<H>, removed: seq<K>, removedIn: seq<H>, headings: set<H>) {
    predicate Valid() { |added| == |addedIn| && |removed| == |removedIn| }
  }

  /** An unpaired addition outside the hunks that add a release heading. */
  predicate Counted<K(==), H(==)>(d: Diff<K, H>, i: nat)
    requires d.Valid() && i < |d.added|
  {
    !Paired(d.added, d.removed, i) && d.addedIn[i] !in d.headings
  }

  /** It is promoted once its hunk's unpaired removals are used up. */
  predicate IsPromoted<K(==), H(==)>(d: Diff<K, H>, i: nat)
    requires d.Valid() && i < |d.added|
  {
    var h := d.addedIn[i];
    Counted(d, i) && Unpaired(d.removed, d.added, d.removedIn, |d.removed|, h) <= Unpaired(d.added, d.removed, d.addedIn, i, h)
  }

  function CountPromoted<K(==), H(==)>(d: Diff<K, H>, n: nat, h: H): nat
    requires d.Valid() && n <= |d.added|
  {
    if n == 0 then 0
    else CountPromoted(d, n - 1, h) + if d.addedIn[n - 1] == h && IsPromoted(d, n - 1) then 1 else 0
  }

  function Excess(a: int, b: int): nat {
    if a > b then a - b else 0
  }

  /** Unpaired removals of a hunk left over after `n` additions, and additions beyond them. */
  function Left<K(==), H(==)>(d: Diff<K, H>, n: nat, h: H): nat
    requires d.Valid() && n <= |d.added|
  {
    Excess(Unpaired(d.removed, d.added, d.removedIn, |d.removed|, h), Unpaired(d.added, d.removed, d.addedIn, n, h))
  }

  lemma {:induction false} PromotesUpTo<K, H>(d: Diff<K, H>, n: nat, h: H)
    requires d.Valid() && n <= |d.added|
    ensures CountPromoted(d, n, h) == if h in d.headings then 0 else
      Excess(Unpaired(d.added, d.removed, d.addedIn, n, h), Unpaired(d.removed, d.added, d.removedIn, |d.removed|, h))
  {
    hide Paired;
    if n > 0 {
      PromotesUpTo(d, n - 1, h);
    }
  }

  /** Each hunk promotes its unpaired additions in excess of its unpaired removals; a hunk with
      an added release heading promotes none. */
  lemma PromotesExactly<K, H>(d: Diff<K, H>, h: H)
    requires d.Valid()
    ensures CountPromoted(d, |d.added|, h) == if h in d.headings then 0 else
      Excess(Unpaired(d.added, d.removed, d.addedIn, |d.added|, h), Unpaired(d.removed, d.added, d.removedIn, |d.removed|, h))
  {
    PromotesUpTo(d, |d.added|, h);
  }

  // ----------------------------------------------------- the pairing, by flags

  /** The removals of one text, in order: an entry of the `removalsByItem` table. */
  function Occurrences<T(==)>(s: seq<T>, n: nat, x: T): seq<nat>
    requires n <= |s|
  {
    if n == 0 then [] else Occurrences(s, n - 1, x) + if s[n - 1] == x then [n - 1] else []
  }

  lemma {:induction false} OccurrencesAre<T>(s: seq<T>, n: nat, x: T)
    requires n <= |s|
    ensures var occ := Occurrences(s, n, x);
      && |occ| == CountIn(s, n, x)
      && (forall t :: 0 <= t < |occ| ==> occ[t] < n && s[occ[t]] == x && CountIn(s, occ[t], x) == t)
  {
    if n > 0 {
      OccurrencesAre(s, n - 1, x);
    }
  }

  lemma {:induction false} CountGrows<T>(s: seq<T>, i: nat, j: nat, x: T)
    requires i <= j <= |s|
    ensures CountIn(s, i, x) <= CountIn(s, j, x)
    ensures i < j && s[i] == x ==> CountIn(s, i, x) < CountIn(s, j, x)
    decreases j
  {
    if i < j {
      CountGrows(s, i, j - 1, x);
    }
  }

  /** Two occurrences at the same rank are one. */
  lemma SameRank<T>(s: seq<T>, i: nat, j: nat)
    requires i < |s| && j < |s| && s[i] == s[j] && CountIn(s, i, s[i]) == CountIn(s, j, s[i])
    ensures i == j
  {
    CountGrows(s, Min(i, j), if i < j then j else i, s[i]);
  }

  /** Groups the removals by text. */
  method GroupByItem(rk: seq<ItemKey>) returns (byItem: map<ItemKey, seq<nat>>)
    ensures forall key :: (if key in byItem then byItem[key] else []) == Occurrences(rk, |rk|, key)
  {
    byItem := map[];
    for j := 0 to |rk|
      invariant forall key :: (if key in byItem then byItem[key] else []) == Occurrences(rk, j, key)
    {
      var key := rk[j];
      if key in byItem {
        byItem := byItem[key := byItem[key] + [j]];
      } else {
        byItem := byItem[key := [j]];
      }
    }
  }

  /** Which removals the first `i` additions have paired with. */
  ghost predicate FlagsAfter(ck: seq<ItemKey>, rk: seq<ItemKey>, removed: seq<bool>, i: nat)
    requires i <= |ck| && |removed| == |rk|
  {
    forall j :: 0 <= j < |rk| ==> removed[j] == (CountIn(rk, j, rk[j]) < CountIn(ck, i, rk[j]))
  }

  lemma FlagsStep(ck: seq<ItemKey>, rk: seq<ItemKey>, removed: seq<bool>, i: nat, t: nat)
    requires i < |ck| && |removed| == |rk| && FlagsAfter(ck, rk, removed, i)
    requires t < |Occurrences(rk, |rk|, ck[i])| && t == CountIn(ck, i, ck[i])
    requires Occurrences(rk, |rk|, ck[i])[t] < |rk|
    ensures FlagsAfter(ck, rk, removed[Occurrences(rk, |rk|, ck[i])[t] := true], i + 1)
  {
    var o := Occurrences(rk, |rk|, ck[i])[t];
    OccurrencesAre(rk, |rk|, ck[i]);
    forall j | 0 <= j < |rk|
      ensures removed[o := true][j] == (CountIn(rk, j, rk[j]) < CountIn(ck, i + 1, rk[j]))
    {
      if rk[j] == ck[i] && CountIn(rk, j, rk[j]) == t {
        SameRank(rk, j, o);
      }
    }
  }

  lemma FlagsSkip(ck: seq<ItemKey>, rk: seq<ItemKey>, removed: seq<bool>, i: nat)
    requires i < |ck| && |removed| == |rk| && FlagsAfter(ck, rk, removed, i)
    requires CountIn(ck, i, ck[i]) >= CountIn(rk, |rk|, ck[i])
    ensures FlagsAfter(ck, rk, removed, i + 1)
  {
    forall j | 0 <= j < |rk|
      ensures removed[j] == (CountIn(rk, j, rk[j]) < CountIn(ck, i + 1, rk[j]))
    {
      CountGrows(rk, j, |rk|, rk[j]);
    }
  }

  /** The first removal of a text that is still free, if any. */
  method FirstFree(occ: seq<nat>, removed: seq<bool>) returns (t: nat)
    requires forall k :: 0 <= k < |occ| ==> occ[k] < |removed|
    ensures t <= |occ| && (forall k :: 0 <= k < t ==> removed[occ[k]]) && (t < |occ| ==> !removed[occ[t]])
  {
    t := 0;
    while t < |occ| && removed[occ[t]]
      invariant t <= |occ| && forall k :: 0 <= k < t ==> removed[occ[k]]
    {
      t := t + 1;
    }
  }

  /** The first free removal is the one whose rank is the addition's, if there is one. */
  lemma FreeRank(ck: seq<ItemKey>, rk: seq<ItemKey>, removed: seq<bool>, i: nat, t: nat)
    requires i < |ck| && |removed| == |rk| && FlagsAfter(ck, rk, removed, i)
    requires forall k :: 0 <= k < |Occurrences(rk, |rk|, ck[i])| ==> Occurrences(rk, |rk|, ck[i])[k] < |rk|
    requires t <= |Occurrences(rk, |rk|, ck[i])|
    requires forall k :: 0 <= k < t ==> removed[Occurrences(rk, |rk|, ck[i])[k]]
    requires t < |Occurrences(rk, |rk|, ck[i])| ==> !removed[Occurrences(rk, |rk|, ck[i])[t]]
    ensures t < |Occurrences(rk, |rk|, ck[i])| ==> t == CountIn(ck, i, ck[i]) && Paired(ck, rk, i)
    ensures t == |Occurrences(rk, |rk|, ck[i])| ==> !Paired(ck, rk, i)
  {
    OccurrencesAre(rk, |rk|, ck[i]);
    if t > 0 {
      assert removed[Occurrences(rk, |rk|, ck[i])[t - 1]];
    }
  }

  /** The pairing loop: each addition takes the first removal of its text that is still free. */
  method Pair(ck: seq<ItemKey>, rk: seq<ItemKey>) returns (added: seq<bool>, removed: seq<bool>)
    ensures |added| == |ck| && forall i :: 0 <= i < |ck| ==> added[i] == Paired(ck, rk, i)
    ensures |removed| == |rk| && forall j :: 0 <= j < |rk| ==> removed[j] == Paired(rk, ck, j)
  {
    hide CountIn, Paired, Occurrences;
    added := [];
    removed := seq(|rk|, j => false);
    var byItem := GroupByItem(rk);
    NoneYet(ck, rk, removed);
    for i := 0 to |ck|
      invariant |removed| == |rk| && FlagsAfter(ck, rk, removed, i)
      invariant |added| == i && forall k :: 0 <= k < i ==> added[k] == Paired(ck, rk, k)
    {
      var occ := if ck[i] in byItem then byItem[ck[i]] else [];
      OccurrencesAre(rk, |rk|, ck[i]);
      var t := FirstFree(occ, removed);
      FreeRank(ck, rk, removed, i, t);
      added := added + [t < |occ|];
      if t < |occ| {
        FlagsStep(ck, rk, removed, i, t);
        removed := removed[occ[t] := true];
      } else {
        NotPairedMeans(ck, rk, i);
        FlagsSkip(ck, rk, removed, i);
      }
    }
    PairedIsFlag(ck, rk, removed);
  }

  lemma NoneYet(ck: seq<ItemKey>, rk: seq<ItemKey>, removed: seq<bool>)
    requires |removed| == |rk| && forall j :: 0 <= j < |rk| ==> !removed[j]
    ensures FlagsAfter(ck, rk, removed, 0)
  {}

  lemma NotPairedMeans(ck: seq<ItemKey>, rk: seq<ItemKey>, i: nat)
    requires i < |ck| && !Paired(ck, rk, i)
    ensures CountIn(ck, i, ck[i]) >= CountIn(rk, |rk|, ck[i])
  {}

  lemma PairedIsFlag(ck: seq<ItemKey>, rk: seq<ItemKey>, removed: seq<bool>)
    requires |removed| == |rk| && FlagsAfter(ck, rk, removed, |ck|)
    ensures forall j :: 0 <= j < |rk| ==> removed[j] == Paired(rk, ck, j)
  {}

  function CountOf<H(==)>(counts: map<H, nat>, h: H): nat {
    if h in counts then counts[h] else 0
  }

  function OneMore<H(==)>(counts: map<H, nat>, h: H): map<H, nat> {
    counts[h := CountOf(counts, h) + 1]
  }

  function OneLess<H(==)>(counts: map<H, nat>, h: H): map<H, nat>
    requires CountOf(counts, h) > 0
  {
    var n: nat := CountOf(counts, h) - 1;
    counts[h := n]
  }

  ghost predicate CountsUnpaired<K, H(!new)>(counts: map<H, nat>, d: Diff<K, H>, j: nat)
    requires d.Valid() && j <= |d.removed|
  {
    forall h :: CountOf(counts, h) == Unpaired(d.removed, d.added, d.removedIn, j, h)
  }

  method CountUnpaired<K, H(!new, ==)>(d: Diff<K, H>, removed: seq<bool>) returns (counts: map<H, nat>)
    requires d.Valid() && |removed| == |d.removed|
    requires forall j :: 0 <= j < |removed| ==> removed[j] == Paired(d.removed, d.added, j)
    ensures CountsUnpaired(counts, d, |d.removed|)
  {
    hide Paired;
    counts := map[];
    for j := 0 to |d.removed|
      invariant CountsUnpaired(counts, d, j)
    {
      ghost var was := counts;
      if !removed[j] {
        counts := OneMore(counts, d.removedIn[j]);
      }
      forall h ensures CountOf(counts, h) == Unpaired(d.removed, d.added, d.removedIn, j + 1, h) {
        assert CountOf(was, h) == Unpaired(d.removed, d.added, d.removedIn, j, h);
      }
    }
  }

  /** How many unpaired removals of each hunk are still to be used up after `i` additions. */
  ghost predicate CountsLeft<K, H(!new)>(counts: map<H, nat>, d: Diff<K, H>, i: nat)
    requires d.Valid() && i <= |d.added|
  {
    forall h :: h !in d.headings ==> CountOf(counts, h) == Left(d, i, h)
  }

  lemma LeftStep<K, H(!new)>(counts: map<H, nat>, d: Diff<K, H>, i: nat)
    requires d.Valid() && i < |d.added| && CountsLeft(counts, d, i)
    ensures IsPromoted(d, i) <==> Counted(d, i) && CountOf(counts, d.addedIn[i]) == 0
    ensures CountsLeft(if Counted(d, i) && CountOf(counts, d.addedIn[i]) > 0 then OneLess(counts, d.addedIn[i]) else counts, d, i + 1)
  {
    hide Paired;
  }

  predicate Listed(linesByPath: map<string, set<int>>, path: string, line: int) {
    path in linesByPath && line in linesByPath[path]
  }

  function Add(linesByPath: map<string, set<int>>, path: string, line: int): map<string, set<int>> {
    linesByPath[path := (if path in linesByPath then linesByPath[path] else {}) + {line}]
  }

  function HunksOf(cs: seq<Candidate>): (hs: seq<HunkRef>)
    ensures |hs| == |cs| && forall i :: 0 <= i < |cs| ==> hs[i] == cs[i].hunk
  {
    seq(|cs|, i requires 0 <= i < |cs| => cs[i].hunk)
  }

  function RemovalHunks(rs: seq<Removal>): (hs: seq<HunkRef>)
    ensures |hs| == |rs| && forall i :: 0 <= i < |rs| ==> hs[i] == rs[i].hunk
  {
    seq(|rs|, i requires 0 <= i < |rs| => rs[i].hunk)
  }

  function DiffOf(cs: seq<Candidate>, rs: seq<Removal>, headings: set<HunkRef>): (d: Diff<ItemKey, HunkRef>)
    ensures d.Valid() && |d.added| == |cs| && |d.removed| == |rs|
  {
    Diff(AddedKeys(cs), HunksOf(cs), RemovedKeys(rs), RemovalHunks(rs), headings)
  }

  /** Some promoted addition among the first `n` stands at this line of this file. */
  ghost predicate PromotedAt(cs: seq<Candidate>, d: Diff<ItemKey, HunkRef>, n: nat, path: string, line: int)
    requires d.Valid() && n <= |cs| == |d.added|
  {
    exists i :: 0 <= i < n && IsPromoted(d, i) && cs[i].hunk.path == path && cs[i].lineNumber == line
  }

  /** The table lists exactly the promoted lines. */
  ghost predicate ListsPromoted(linesByPath: map<string, set<int>>, cs: seq<Candidate>, d: Diff<ItemKey, HunkRef>, n: nat)
    requires d.Valid() && n <= |cs| == |d.added|
  {
    forall path, line :: Listed(linesByPath, path, line) <==> PromotedAt(cs, d, n, path, line)
  }

  lemma ListsStep(linesByPath: map<string, set<int>>, cs: seq<Candidate>, d: Diff<ItemKey, HunkRef>, i: nat)
    requires d.Valid() && i < |cs| == |d.added| && ListsPromoted(linesByPath, cs, d, i)
    ensures ListsPromoted(if IsPromoted(d, i) then Add(linesByPath, cs[i].hunk.path, cs[i].lineNumber) else linesByPath, cs, d, i + 1)
  {
    hide IsPromoted;
    var next := if IsPromoted(d, i) then Add(linesByPath, cs[i].hunk.path, cs[i].lineNumber) else linesByPath;
    forall path, line ensures Listed(next, path, line) <==> PromotedAt(cs, d, i + 1, path, line) {
      assert Listed(linesByPath, path, line) <==> PromotedAt(cs, d, i, path, line);
    }
  }

  /** `collectPromotableAddedItemLines`, from the additions and removals on. */
  method CollectPromotable(cs: seq<Candidate>, rs: seq<Removal>, headings: set<HunkRef>)
    returns (linesByPath: map<string, set<int>>)
    ensures ListsPromoted(linesByPath, cs, DiffOf(cs, rs, headings), |cs|)
  {
    hide AddedKey, RemovedKey;
    var d := DiffOf(cs, rs, headings);
    var added, removed := Pair(d.added, d.removed);
    var counts := CountUnpaired(d, removed);
    linesByPath := map[];
    for i := 0 to |cs|
      invariant CountsLeft(counts, d, i)
      invariant ListsPromoted(linesByPath, cs, d, i)
    {
      LeftStep(counts, d, i);
      ListsStep(linesByPath, cs, d, i);
      assert d.addedIn[i] == cs[i].hunk && Counted(d, i) == (!added[i] && cs[i].hunk !in headings);
      linesByPath, counts := PromoteOne(linesByPath, counts, cs[i], added[i], headings);
    }
  }

  /** What the last loop does with one addition. */
  method PromoteOne(linesByPath: map<string, set<int>>, counts: map<HunkRef, nat>, c: Candidate, paired: bool, headings: set<HunkRef>)
    returns (lines: map<string, set<int>>, left: map<HunkRef, nat>)
    ensures var counted := !paired && c.hunk !in headings;
      && lines == (if counted && CountOf(counts, c.hunk) == 0 then Add(linesByPath, c.hunk.path, c.lineNumber) else linesByPath)
      && left == (if counted && CountOf(counts, c.hunk) > 0 then OneLess(counts, c.hunk) else counts)
  {
    lines, left := linesByPath, counts;
    if !paired && c.hunk !in headings {
      if CountOf(counts, c.hunk) > 0 {
        left := OneLess(counts, c.hunk);
      } else {
        lines := Add(linesByPath, c.hunk.path, c.lineNumber);
      }
    }
  }
}
