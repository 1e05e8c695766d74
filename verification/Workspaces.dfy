/** Affected-workspace selection and ordering (scripts/run-ts-check.ts). */
module Workspaces {
  import opened Basics
  import opened Ordering

  datatype Workspace = Workspace(name: string, dir: string, hasCheck: bool, dependencies: seq<string>)

  type Index = map<string, Workspace>

  // ------------------------------------------------------------- indexes

  function NamesOf(ws: seq<Workspace>): set<string> {
    set w | w in ws :: w.name
  }

  /** `new Map(workspaces.map(w => [w.name, w]))`: the last entry of a name wins. */
  function ByName(ws: seq<Workspace>): (m: Index)
    ensures forall n :: n in m <==> exists w :: w in ws && w.name == n
    ensures forall n :: n in m ==> m[n] in ws && m[n].name == n
  {
    if ws == [] then map[]
    else
      var last := ws[|ws| - 1];
      assert forall w :: w in ws <==> w == last || w in ws[..|ws| - 1];
      ByName(ws[..|ws| - 1])[last.name := last]
  }

  function ByDir(ws: seq<Workspace>): (m: Index)
    ensures forall d :: d in m <==> exists w :: w in ws && w.dir == d
    ensures forall d :: d in m ==> m[d] in ws && m[d].dir == d
  {
    if ws == [] then map[]
    else
      var last := ws[|ws| - 1];
      assert forall w :: w in ws <==> w == last || w in ws[..|ws| - 1];
      ByDir(ws[..|ws| - 1])[last.dir := last]
  }

  // ---------------------------------------------------- dependency graphs

  /** `a` lists `b` as a dependency, and `b` is selected. */
  ghost predicate Edge(g: Index, selected: set<string>, a: string, b: string) {
    a in g && b in g[a].dependencies && b in selected
  }

  ghost predicate IsPath(g: Index, selected: set<string>, p: seq<string>) {
    |p| > 0 && forall i :: 0 <= i < |p| - 1 ==> Edge(g, selected, p[i], p[i + 1])
  }

  ghost predicate Path(g: Index, selected: set<string>, p: seq<string>, a: string, b: string) {
    IsPath(g, selected, p) && p[0] == a && p[|p| - 1] == b
  }

  /** No dependency chain among the selected names leads back to where it started. */
  ghost predicate Acyclic(g: Index, selected: set<string>) {
    !exists p, n :: n in selected && |p| > 1 && Path(g, selected, p, n, n)
  }

  ghost predicate Reaches(g: Index, selected: set<string>, a: string, b: string) {
    exists p :: Path(g, selected, p, a, b)
  }

  lemma ReachesSelf(g: Index, selected: set<string>, a: string)
    ensures Reaches(g, selected, a, a)
  {
    assert Path(g, selected, [a], a, a);
  }

  lemma ExtendPath(g: Index, selected: set<string>, a: string, b: string, c: string)
    requires Reaches(g, selected, a, b) && Edge(g, selected, b, c)
    ensures Reaches(g, selected, a, c)
    ensures a == c && a in selected ==> !Acyclic(g, selected)
  {
    var p :| Path(g, selected, p, a, b);
    assert Path(g, selected, p + [c], a, c);
  }

  // ------------------------------------------------------ topological order

  /** Every selected dependency that names a workspace stands before its dependent. */
  ghost predicate DependenciesFirst(g: Index, selected: set<string>, ordered: seq<string>) {
    forall i, d :: 0 <= i < |ordered| && Edge(g, selected, ordered[i], d) && d in g
      ==> d in ordered[..i]
  }

  ghost predicate NoRepeats(s: seq<string>) {
    forall i, j :: 0 <= i < j < |s| ==> s[i] != s[j]
  }

  /** An order can put every dependency first only when there is no cycle. */
  lemma {:induction false} DependenciesFirstImpliesAcyclic(g: Index, selected: set<string>, ordered: seq<string>)
    requires DependenciesFirst(g, selected, ordered) && NoRepeats(ordered)
    requires forall n :: n in g && n in selected ==> n in ordered
    ensures Acyclic(g, selected)
  {
    forall p, n | n in selected && |p| > 1 && Path(g, selected, p, n, n) ensures false {
      assert Edge(g, selected, p[0], p[1]);
      var k :| 0 <= k < |ordered| && ordered[k] == n;
      PathDescends(g, selected, ordered, p, k);
    }
  }

  lemma {:induction false} PathDescends(g: Index, selected: set<string>, ordered: seq<string>, p: seq<string>, k: nat)
    requires DependenciesFirst(g, selected, ordered) && NoRepeats(ordered)
    requires IsPath(g, selected, p) && |p| > 1 && k < |ordered| && ordered[k] == p[0]
    requires p[|p| - 1] in g
    ensures exists j :: 0 <= j < k && ordered[j] == p[|p| - 1]
  {
    assert Edge(g, selected, p[0], p[1]);
    assert |p| > 2 ==> Edge(g, selected, p[1], p[2]);
    assert p[1] in ordered[..k];
    var j :| 0 <= j < k && ordered[j] == p[1];
    if |p| > 2 {
      var q := p[1..];
      forall i | 0 <= i < |q| - 1 ensures Edge(g, selected, q[i], q[i + 1]) {
        assert Edge(g, selected, p[i + 1], p[i + 2]);
      }
      PathDescends(g, selected, ordered, q, j);
    }
  }

  /** The closure state of `orderWorkspaces`: `visit` is its recursive inner function. */
  class Orderer {
    const byName: Index
    const selected: set<string>
    var visiting: set<string>
    var visited: set<string>
    var ordered: seq<string>

    constructor (byName: Index, selected: set<string>)
      ensures this.byName == byName && this.selected == selected
      ensures visiting == {} && visited == {} && ordered == [] && Valid()
    {
      this.byName, this.selected := byName, selected;
      visiting, visited, ordered := {}, {}, [];
    }

    ghost predicate Valid()
      reads this
    {
      && visiting !! visited
      && visiting + visited <= byName.Keys
      && NoRepeats(ordered)
      && (forall n :: n in ordered <==> n in visited && n in selected)
      && (Acyclic(byName, selected) ==> DependenciesFirst(byName, selected, ordered))
    }

    method Visit(name: string)
      requires Valid() && name in selected
      requires forall v :: v in visiting ==> v in selected && Reaches(byName, selected, v, name)
      modifies this
      ensures Valid() && visiting == old(visiting)
      ensures old(visited) <= visited && old(ordered) <= ordered
      ensures name in byName ==> name in visited || name in visiting
      decreases byName.Keys - visiting
    {
      if name in visited { return; }
      if name in visiting { return; }
      if name !in byName { return; }
      var workspace := byName[name];
      visiting := visiting + {name};
      ghost var open := visiting;
      ReachesSelf(byName, selected, name);
      for i := 0 to |workspace.dependencies|
        invariant Valid() && visiting == open
        invariant old(visited) <= visited && old(ordered) <= ordered
        invariant forall d :: d in workspace.dependencies[..i] && d in selected && d in byName ==> d in visited + open
      {
        var dependency := workspace.dependencies[i];
        if dependency in selected {
          forall v | v in visiting ensures Reaches(byName, selected, v, dependency) {
            ExtendPath(byName, selected, v, name, dependency);
          }
          Visit(dependency);
        }
      }
      if Acyclic(byName, selected) {
        forall d | Edge(byName, selected, name, d) && d in byName ensures d in ordered {
          if d in open { ExtendPath(byName, selected, d, name, d); }
        }
      }
      ghost var before := ordered;
      visiting := visiting - {name};
      visited := visited + {name};
      if name in selected { ordered := ordered + [name]; }
      assert forall i :: 0 <= i <= |before| ==> ordered[..i] == before[..i];
    }
  }

  method OrderWorkspaces(ws: seq<Workspace>, selected: set<string>) returns (ordered: seq<string>)
    ensures NoRepeats(ordered)
    ensures forall n :: n in ordered <==> n in selected && n in NamesOf(ws)
    ensures DependenciesFirst(ByName(ws), selected, ordered) <==> Acyclic(ByName(ws), selected)
  {
    var orderer := new Orderer(ByName(ws), selected);
    var names := SortedElements(selected);
    for i := 0 to |names|
      invariant orderer.Valid() && orderer.visiting == {}
      invariant forall j :: 0 <= j < i && names[j] in orderer.byName ==> names[j] in orderer.visited
    {
      orderer.Visit(names[i]);
    }
    ordered := orderer.ordered;
    assert forall n :: n in ordered ==> n in orderer.byName;
    assert forall n :: n in NamesOf(ws) <==> n in ByName(ws);
    if DependenciesFirst(ByName(ws), selected, ordered) {
      DependenciesFirstImpliesAcyclic(ByName(ws), selected, ordered);
    }
  }

  // ---------------------------------------------------- affected workspaces

  /** A chain of dependents: each element is the name of a workspace that lists the next one. */
  ghost predicate Chain(ws: seq<Workspace>, p: seq<string>) {
    |p| > 0 && forall i :: 0 <= i < |p| - 1 ==> Lists(ws, p[i], p[i + 1])
  }

  ghost predicate Lists(ws: seq<Workspace>, a: string, b: string) {
    exists w :: w in ws && w.name == a && b in w.dependencies
  }

  /** `n` is one of `seeds`, or depends on one directly or through other workspaces. */
  ghost predicate DependsOnSeed(ws: seq<Workspace>, seeds: set<string>, n: string) {
    exists p :: Chain(ws, p) && p[0] == n && p[|p| - 1] in seeds
  }

  lemma SeedDepends(ws: seq<Workspace>, seeds: set<string>, n: string)
    requires n in seeds
    ensures DependsOnSeed(ws, seeds, n)
  {
    assert Chain(ws, [n]);
  }

  lemma DependentOf(ws: seq<Workspace>, seeds: set<string>, w: Workspace, d: string)
    requires w in ws && d in w.dependencies && DependsOnSeed(ws, seeds, d)
    ensures DependsOnSeed(ws, seeds, w.name)
  {
    var p :| Chain(ws, p) && p[0] == d && p[|p| - 1] in seeds;
    var q := [w.name] + p;
    assert Lists(ws, w.name, d);
    assert forall i :: 0 < i < |q| - 1 ==> q[i] == p[i - 1] && q[i + 1] == p[i];
    assert Chain(ws, q);
  }

  /** Nothing `w` lists is affected, unless `w` already is. */
  predicate Quiet(w: Workspace, affected: set<string>) {
    w.name in affected || forall d :: d in w.dependencies ==> d !in affected
  }

  lemma {:induction false} ClosedContainsChain(ws: seq<Workspace>, closed: set<string>, p: seq<string>)
    requires forall w :: w in ws ==> Quiet(w, closed)
    requires Chain(ws, p) && p[|p| - 1] in closed
    ensures p[0] in closed
  {
    if |p| > 1 {
      var q := p[1..];
      forall i | 0 <= i < |q| - 1 ensures Lists(ws, q[i], q[i + 1]) {
        assert Lists(ws, p[i + 1], p[i + 2]);
      }
      ClosedContainsChain(ws, closed, q);
      assert Lists(ws, p[0], p[1]);
    }
  }

  /** The reverse-dependency fixpoint: exactly the names that depend on a seed. */
  method GrowAffected(ws: seq<Workspace>, seeds: set<string>) returns (affected: set<string>)
    ensures forall n :: n in affected <==> DependsOnSeed(ws, seeds, n)
  {
    affected := seeds;
    forall n | n in seeds ensures DependsOnSeed(ws, seeds, n) { SeedDepends(ws, seeds, n); }
    var changed := true;
    while changed
      invariant seeds <= affected
      invariant forall n :: n in affected ==> DependsOnSeed(ws, seeds, n)
      invariant !changed ==> forall w :: w in ws ==> Quiet(w, affected)
      decreases NamesOf(ws) - affected, if changed then 1 else 0
    {
      ghost var start := affected;
      affected, changed := GrowOnce(ws, seeds, affected);
      if changed {
        ghost var n :| n in affected - start && n in NamesOf(ws);
        assert n in NamesOf(ws) - start && n !in NamesOf(ws) - affected;
      }
    }
    forall n | DependsOnSeed(ws, seeds, n) ensures n in affected {
      var p :| Chain(ws, p) && p[0] == n && p[|p| - 1] in seeds;
      ClosedContainsChain(ws, affected, p);
    }
  }

  /** One round of the `while (changed)` loop. */
  method GrowOnce(ws: seq<Workspace>, ghost seeds: set<string>, start: set<string>)
    returns (affected: set<string>, changed: bool)
    requires forall n :: n in start ==> DependsOnSeed(ws, seeds, n)
    ensures start <= affected
    ensures forall n :: n in affected ==> DependsOnSeed(ws, seeds, n)
    ensures !changed ==> forall w :: w in ws ==> Quiet(w, affected)
    ensures changed ==> exists n :: n in affected - start && n in NamesOf(ws)
  {
    affected, changed := start, false;
    for i := 0 to |ws|
      invariant start <= affected
      invariant forall n :: n in affected ==> DependsOnSeed(ws, seeds, n)
      invariant !changed ==> affected == start && forall j :: 0 <= j < i ==> Quiet(ws[j], affected)
      invariant changed ==> exists n :: n in affected - start && n in NamesOf(ws)
    {
      var w := ws[i];
      if w.name in affected { continue; }
      if !exists d :: d in w.dependencies && d in affected { continue; }
      ghost var d :| d in w.dependencies && d in affected;
      DependentOf(ws, seeds, w, d);
      assert w.name in NamesOf(ws);
      affected, changed := affected + {w.name}, true;
    }
  }

  // ------------------------------------------------------- changed paths

  function ForwardSlashes(path: string): string {
    seq(|path|, i requires 0 <= i < |path| => if path[i] == '\\' then '/' else path[i])
  }

  predicate IsGlobalTypeScriptInput(path: string) {
    || path == "package.json"
    || path == "bun.lock"
    || path == "bunfig.toml"
    || path == "biome.json"
    || path == "biome.jsonc"
    || path == "tsconfig.json"
    || path == "tsconfig.base.json"
    || path == "tsconfig.tools.json"
    || "patches/" <= path
    || "types/" <= path
  }

  /** The length of the longest prefix without a slash. */
  function SegmentLength(s: string): (k: nat)
    ensures k <= |s| && '/' !in s[..k] && (k == |s| || s[k] == '/')
  {
    if s == [] || s[0] == '/' then 0 else 1 + SegmentLength(s[1..])
  }

  function WorkspaceDirForPath(path: string): Option<string> {
    if "packages/" <= path && SegmentLength(path[9..]) > 0 then
      Some(path[..9 + SegmentLength(path[9..])])
    else if path == "python/robomp/web" || "python/robomp/web/" <= path then
      Some("python/robomp/web")
    else
      None
  }

  /** This change makes every workspace run: a repository-wide input, or a
      workspace directory that no manifest was loaded for. */
  predicate ForcesAll(ws: seq<Workspace>, changedPath: string) {
    var path := ForwardSlashes(changedPath);
    IsGlobalTypeScriptInput(path) ||
    (WorkspaceDirForPath(path).Some? && WorkspaceDirForPath(path).value !in ByDir(ws))
  }

  predicate Seeds(ws: seq<Workspace>, changedPath: string, name: string) {
    var dir := WorkspaceDirForPath(ForwardSlashes(changedPath));
    dir.Some? && dir.value in ByDir(ws) && ByDir(ws)[dir.value].name == name
  }

  /** What the selection promises: everything when some change forces it, otherwise the
      workspaces that own a changed path and all their direct and indirect dependents. */
  ghost predicate IsAffected(ws: seq<Workspace>, changedPaths: seq<string>, n: string) {
    n in NamesOf(ws) &&
    ((exists p :: p in changedPaths && ForcesAll(ws, p)) ||
     DependsOnSeed(ws, SeedSet(ws, changedPaths), n))
  }

  ghost function SeedSet(ws: seq<Workspace>, changedPaths: seq<string>): set<string> {
    set n | n in NamesOf(ws) && exists p :: p in changedPaths && Seeds(ws, p, n)
  }

  lemma DependentIsNamed(ws: seq<Workspace>, seeds: set<string>, n: string)
    requires DependsOnSeed(ws, seeds, n) && seeds <= NamesOf(ws)
    ensures n in NamesOf(ws)
  {
    var p :| Chain(ws, p) && p[0] == n && p[|p| - 1] in seeds;
    if |p| > 1 { assert Lists(ws, p[0], p[1]); }
  }

  method SelectAffectedWorkspaceNames(ws: seq<Workspace>, changedPaths: seq<string>)
    returns (names: seq<string>)
    ensures NoRepeats(names)
    ensures forall n :: n in names <==> IsAffected(ws, changedPaths, n)
    ensures var selected := set n | n in names;
            DependenciesFirst(ByName(ws), selected, names) <==> Acyclic(ByName(ws), selected)
  {
    hide DependenciesFirst, Acyclic, DependsOnSeed, IsGlobalTypeScriptInput, ForwardSlashes, WorkspaceDirForPath;
    var byDir := ByDir(ws);
    var seeds: set<string> := {};
    var runAll := false;
    for i := 0 to |changedPaths|
      invariant !runAll && seeds == SeedSet(ws, changedPaths[..i])
      invariant forall p :: p in changedPaths[..i] ==> !ForcesAll(ws, p)
    {
      assert changedPaths[..i + 1] == changedPaths[..i] + [changedPaths[i]];
      var path := ForwardSlashes(changedPaths[i]);
      if IsGlobalTypeScriptInput(path) {
        runAll := true;
        assert ForcesAll(ws, changedPaths[i]);
        break;
      }
      var dir := WorkspaceDirForPath(path);
      if dir.None? { continue; }
      if dir.value !in byDir {
        runAll := true;
        assert ForcesAll(ws, changedPaths[i]);
        break;
      }
      assert Seeds(ws, changedPaths[i], byDir[dir.value].name);
      seeds := seeds + {byDir[dir.value].name};
    }
    if runAll {
      names := OrderWorkspaces(ws, NamesOf(ws));
      assert (set n | n in names) == NamesOf(ws);
      return;
    }
    assert changedPaths[..|changedPaths|] == changedPaths;
    var affected := GrowAffected(ws, seeds);
    forall n | n in affected ensures n in NamesOf(ws) { DependentIsNamed(ws, seeds, n); }
    names := OrderWorkspaces(ws, affected);
    assert (set n | n in names) == affected;
  }
}
