/** `Array.prototype.sort` with a comparator, as stable insertion, and `filter`. */
module StableSort {
  import opened Lists

  function InsertBy<T>(cmp: (T, T) -> int, x: T, s: seq<T>): (r: seq<T>)
    ensures multiset(r) == multiset(s) + multiset{x}
  {
    if s == [] then [x]
    else if cmp(x, s[0]) <= 0 then [x] + s
    else
      assert s == [s[0]] + s[1..];
      [s[0]] + InsertBy(cmp, x, s[1..])
  }

  function SortBy<T>(cmp: (T, T) -> int, s: seq<T>): (r: seq<T>)
    ensures multiset(r) == multiset(s)
  {
    if s == [] then []
    else
      assert s == [s[0]] + s[1..];
      InsertBy(cmp, s[0], SortBy(cmp, s[1..]))
  }

  ghost predicate Ascending<T>(cmp: (T, T) -> int, s: seq<T>) {
    forall i, j :: 0 <= i < j < |s| ==> cmp(s[i], s[j]) <= 0
  }

  /** On the elements in `ok`, the comparator is a total preorder. */
  ghost predicate Consistent<T(!new)>(cmp: (T, T) -> int, ok: T -> bool) {
    && (forall x, y :: ok(x) && ok(y) ==> cmp(x, y) <= 0 || cmp(y, x) <= 0)
    && (forall x, y, z :: ok(x) && ok(y) && ok(z) && cmp(x, y) <= 0 && cmp(y, z) <= 0 ==> cmp(x, z) <= 0)
  }

  lemma SameMembers<T>(a: seq<T>, b: seq<T>)
    requires multiset(a) == multiset(b)
    ensures |a| == |b| && forall x :: x in a <==> x in b
  {
    forall x ensures x in a <==> x in b {
      assert x in multiset(a) <==> x in multiset(b);
    }
    assert |multiset(a)| == |multiset(b)|;
  }

  ghost predicate Distinct<T>(s: seq<T>) {
    forall i, j :: 0 <= i < j < |s| ==> s[i] != s[j]
  }

  lemma OnceIn<T>(s: seq<T>, p: nat)
    requires Distinct(s) && p < |s|
    ensures multiset(s)[s[p]] == 1
  {
    assert s == s[..p] + ([s[p]] + s[p + 1..]);
    assert s[p] !in s[..p] && s[p] !in s[p + 1..];
  }

  lemma TwiceIn<T>(s: seq<T>, i: nat, j: nat)
    requires i < j < |s| && s[i] == s[j]
    ensures multiset(s)[s[i]] >= 2
  {
    assert s == s[..j] + ([s[j]] + s[j + 1..]);
    assert s[..j][i] == s[i];
    assert s[i] in multiset(s[..j]);
  }

  /** A permutation of distinct elements is distinct. */
  lemma DistinctPermuted<T>(a: seq<T>, b: seq<T>)
    requires Distinct(a) && multiset(a) == multiset(b)
    ensures Distinct(b)
  {
    SameMembers(a, b);
    forall i, j | 0 <= i < j < |b| ensures b[i] != b[j] {
      assert b[i] in a;
      var p :| 0 <= p < |a| && a[p] == b[i];
      OnceIn(a, p);
      if b[i] == b[j] {
        TwiceIn(b, i, j);
      }
    }
  }

  lemma EveryMember<T>(p: T -> bool, a: seq<T>, b: seq<T>)
    requires Every(p, a) && forall x :: x in b ==> x in a
    ensures Every(p, b)
  {
    forall i | 0 <= i < |b| ensures p(b[i]) {
      assert b[i] in a;
    }
  }

  lemma {:induction false} InsertAscending<T(!new)>(cmp: (T, T) -> int, ok: T -> bool, x: T, s: seq<T>)
    requires Consistent(cmp, ok) && ok(x) && Every(ok, s) && Ascending(cmp, s)
    ensures Ascending(cmp, InsertBy(cmp, x, s))
  {
    if s != [] {
      if cmp(x, s[0]) <= 0 {
        forall j | 0 <= j < |s| ensures cmp(x, s[j]) <= 0 {
          assert ok(s[0]) && ok(s[j]);
          assert j > 0 ==> cmp(s[0], s[j]) <= 0;
        }
      } else {
        var rest := InsertBy(cmp, x, s[1..]);
        InsertAscending(cmp, ok, x, s[1..]);
        assert cmp(s[0], x) <= 0;
        forall j | 0 <= j < |rest| ensures cmp(s[0], rest[j]) <= 0 {
          InsertMember(cmp, x, s[1..], rest[j]);
        }
        HeadAscending(cmp, s[0], rest);
      }
    }
  }

  lemma HeadAscending<T>(cmp: (T, T) -> int, x: T, s: seq<T>)
    requires Ascending(cmp, s) && forall j :: 0 <= j < |s| ==> cmp(x, s[j]) <= 0
    ensures Ascending(cmp, [x] + s)
  {}

  lemma InsertMember<T>(cmp: (T, T) -> int, x: T, s: seq<T>, y: T)
    ensures y in InsertBy(cmp, x, s) <==> y == x || y in s
  {
    SameMembers(InsertBy(cmp, x, s), s + [x]);
  }

  lemma {:induction false} SortAscending<T(!new)>(cmp: (T, T) -> int, ok: T -> bool, s: seq<T>)
    requires Consistent(cmp, ok) && Every(ok, s)
    ensures Ascending(cmp, SortBy(cmp, s))
  {
    if s != [] {
      hide Consistent, Ascending;
      SortAscending(cmp, ok, s[1..]);
      SameMembers(SortBy(cmp, s[1..]), s[1..]);
      EveryMember(ok, s[1..], SortBy(cmp, s[1..]));
      InsertAscending(cmp, ok, s[0], SortBy(cmp, s[1..]));
    } else {
      assert SortBy(cmp, s) == [];
    }
  }

  lemma {:induction false} AscendingIsFixed<T>(cmp: (T, T) -> int, s: seq<T>)
    requires Ascending(cmp, s)
    ensures SortBy(cmp, s) == s
  {
    if s != [] {
      AscendingIsFixed(cmp, s[1..]);
      assert |s| > 1 ==> cmp(s[0], s[1]) <= 0;
    }
  }

  /** Sorting a second time changes nothing. */
  lemma SortTwice<T(!new)>(cmp: (T, T) -> int, ok: T -> bool, s: seq<T>)
    requires Consistent(cmp, ok) && Every(ok, s)
    ensures SortBy(cmp, SortBy(cmp, s)) == SortBy(cmp, s)
  {
    SortAscending(cmp, ok, s);
    AscendingIsFixed(cmp, SortBy(cmp, s));
  }

  // ---------------------------------------------------------------- filtering

  function Filter<T(!new)>(p: T -> bool, s: seq<T>): (r: seq<T>)
    ensures forall x :: x in r <==> x in s && p(x)
  {
    if s == [] then [] else (if p(s[0]) then [s[0]] else []) + Filter(p, s[1..])
  }

  lemma FilterCons<T(!new)>(p: T -> bool, x: T, s: seq<T>)
    ensures Filter(p, [x] + s) == if p(x) then [x] + Filter(p, s) else Filter(p, s)
  {
    assert ([x] + s)[1..] == s;
    assert [] + Filter(p, s) == Filter(p, s);
  }

  lemma FilterStep<T(!new)>(p: T -> bool, s: seq<T>, i: nat, r: seq<T>)
    requires i < |s|
    ensures r + Filter(p, s[i..]) == (if p(s[i]) then r + [s[i]] else r) + Filter(p, s[i + 1..])
  {
    assert s[i..] == [s[i]] + s[i + 1..];
    FilterCons(p, s[i], s[i + 1..]);
  }

  lemma {:induction false} FilterAppend<T(!new)>(p: T -> bool, a: seq<T>, b: seq<T>)
    ensures Filter(p, a + b) == Filter(p, a) + Filter(p, b)
  {
    if a == [] {
      assert a + b == b;
    } else {
      assert (a + b)[1..] == a[1..] + b;
      FilterAppend(p, a[1..], b);
    }
  }

  lemma {:induction false} FilterAll<T(!new)>(p: T -> bool, s: seq<T>)
    requires Every(p, s)
    ensures Filter(p, s) == s
  {
    if s != [] {
      FilterAll(p, s[1..]);
    }
  }

  lemma {:induction false} FilterNone<T(!new)>(p: T -> bool, s: seq<T>)
    requires Lacks(p, s)
    ensures Filter(p, s) == []
  {
    if s != [] {
      FilterNone(p, s[1..]);
    }
  }

  lemma {:induction false} FilterFirst<T(!new)>(p: T -> bool, s: seq<T>)
    ensures Ahead(p, s) < |s| ==> Filter(p, s) != [] && Filter(p, s)[0] == s[Ahead(p, s)]
    ensures Ahead(p, s) == |s| ==> Filter(p, s) == []
  {
    if s != [] {
      FilterFirst(p, s[1..]);
    }
  }

  // ---------------------------------------------------------------- stability

  /** No element of `p` has to stand behind another. */
  ghost predicate Level<T(!new)>(cmp: (T, T) -> int, p: T -> bool) {
    forall x, y :: p(x) && p(y) ==> cmp(x, y) <= 0
  }

  lemma {:induction false} InsertStable<T(!new)>(cmp: (T, T) -> int, p: T -> bool, x: T, s: seq<T>)
    requires Level(cmp, p)
    ensures Filter(p, InsertBy(cmp, x, s)) == Filter(p, [x] + s)
  {
    hide Filter;
    if s != [] && cmp(x, s[0]) > 0 {
      InsertStable(cmp, p, x, s[1..]);
      FilterCons(p, s[0], InsertBy(cmp, x, s[1..]));
      FilterCons(p, x, s[1..]);
      FilterCons(p, s[0], s[1..]);
      FilterCons(p, x, s);
      assert s == [s[0]] + s[1..];
    } else {
      assert s == [] ==> [x] + s == [x];
    }
  }

  /** Sorting keeps elements that no comparison tells apart in the order they had. */
  lemma {:induction false} SortStable<T(!new)>(cmp: (T, T) -> int, p: T -> bool, s: seq<T>)
    requires Level(cmp, p)
    ensures Filter(p, SortBy(cmp, s)) == Filter(p, s)
  {
    hide Level, Filter;
    if s != [] {
      SortStable(cmp, p, s[1..]);
      InsertStable(cmp, p, s[0], SortBy(cmp, s[1..]));
      FilterCons(p, s[0], SortBy(cmp, s[1..]));
      FilterCons(p, s[0], s[1..]);
      assert s == [s[0]] + s[1..];
    }
  }
}
