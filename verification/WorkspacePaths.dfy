/** Which workspace a changed path belongs to (scripts/run-ts-check.ts:32-88). */
module WorkspacePaths {
  import opened Basics
  import opened Workspaces

  /** A directory directly under `packages`, or the one workspace elsewhere. */
  ghost predicate IsWorkspaceDir(dir: string) {
    || dir == "python/robomp/web"
    || exists name :: name != [] && '/' !in name && dir == "packages/" + name
  }

  /** The directory itself, or something in it. */
  ghost predicate InDir(path: string, dir: string) {
    path == dir || exists rest :: path == dir + "/" + rest
  }

  lemma {:induction false} SegmentIs(name: string, rest: string)
    requires '/' !in name && (rest == [] || rest[0] == '/')
    ensures SegmentLength(name + rest) == |name|
  {
    if name == [] {
      assert name + rest == rest;
    } else {
      assert (name + rest)[1..] == name[1..] + rest;
      SegmentIs(name[1..], rest);
    }
  }

  lemma PackagePath(name: string, rest: string)
    requires name != [] && '/' !in name && (rest == [] || rest[0] == '/')
    ensures WorkspaceDirForPath("packages/" + name + rest) == Some("packages/" + name)
  {
    var path := "packages/" + name + rest;
    assert path == "packages/" + (name + rest) && path[9..] == name + rest;
    SegmentIs(name, rest);
    assert path[..9 + |name|] == "packages/" + name;
  }

  lemma WebPath(path: string)
    requires InDir(path, "python/robomp/web")
    ensures WorkspaceDirForPath(path) == Some("python/robomp/web")
  {
    hide SegmentLength;
    if path != "python/robomp/web" {
      var rest :| path == "python/robomp/web" + "/" + rest;
      assert path == "python/robomp/web/" + rest;
    }
    assert path[1] == 'y' && "packages/"[1] == 'a';
  }

  /** A path selects a directory exactly if it is that directory or in it. */
  lemma DirExactly(path: string, dir: string)
    ensures WorkspaceDirForPath(path) == Some(dir) <==> IsWorkspaceDir(dir) && InDir(path, dir)
  {
    if WorkspaceDirForPath(path) == Some(dir) {
      DirIsSelected(path, dir);
    }
    hide WorkspaceDirForPath, InDir;
    if IsWorkspaceDir(dir) && InDir(path, dir) {
      if dir == "python/robomp/web" {
        WebPath(path);
      } else {
        var name :| name != [] && '/' !in name && dir == "packages/" + name;
        InPackage(path, name);
      }
    }
  }

  lemma InPackage(path: string, name: string)
    requires name != [] && '/' !in name && InDir(path, "packages/" + name)
    ensures WorkspaceDirForPath(path) == Some("packages/" + name)
  {
    hide WorkspaceDirForPath;
    var dir := "packages/" + name;
    if path == dir {
      PackagePath(name, []);
      assert dir + [] == dir;
    } else {
      var rest :| path == dir + "/" + rest;
      PackagePath(name, "/" + rest);
      assert path == "packages/" + name + ("/" + rest);
    }
  }

  lemma DirIsSelected(path: string, dir: string)
    requires WorkspaceDirForPath(path) == Some(dir)
    ensures IsWorkspaceDir(dir) && InDir(path, dir)
  {
    hide SegmentLength;
    if "packages/" <= path && SegmentLength(path[9..]) > 0 {
      var n := SegmentLength(path[9..]);
      assert dir == "packages/" + path[9..][..n];
      if path != dir {
        assert path[9..][n] == '/';
        assert path == dir + "/" + path[9 + n + 1..];
      }
    } else if path != dir {
      assert path == dir + "/" + path[18..];
    }
  }

  /** No two workspaces share a directory. */
  ghost predicate OwnDirs(ws: seq<Workspace>) {
    forall v, w :: v in ws && w in ws && v.dir == w.dir ==> v == w
  }

  /** A change in the directory of a workspace affects that workspace and everything that depends on
      it, directly or through others. */
  lemma ChangeAffectsDependents(ws: seq<Workspace>, changedPaths: seq<string>, path: string, w: Workspace, n: string)
    requires OwnDirs(ws) && w in ws && path in changedPaths
    requires IsWorkspaceDir(w.dir) && InDir(ForwardSlashes(path), w.dir) && DependsOnSeed(ws, {w.name}, n)
    ensures IsAffected(ws, changedPaths, n)
  {
    hide ForwardSlashes, WorkspaceDirForPath, IsWorkspaceDir, InDir, IsGlobalTypeScriptInput;
    DirExactly(ForwardSlashes(path), w.dir);
    assert w.dir in ByDir(ws) && ByDir(ws)[w.dir] == w;
    assert Seeds(ws, path, w.name) && w.name in NamesOf(ws);
    DependentIsNamed(ws, {w.name}, n);
    var p :| Chain(ws, p) && p[0] == n && p[|p| - 1] in {w.name};
    assert p[|p| - 1] in SeedSet(ws, changedPaths);
    assert DependsOnSeed(ws, SeedSet(ws, changedPaths), n);
  }

  /** And where nothing forces all workspaces, only such changes affect one. */
  lemma OnlyDependentsAffected(ws: seq<Workspace>, changedPaths: seq<string>, n: string)
    requires IsAffected(ws, changedPaths, n) && forall p :: p in changedPaths ==> !ForcesAll(ws, p)
    ensures exists path, w :: path in changedPaths && w in ws && IsWorkspaceDir(w.dir) && InDir(ForwardSlashes(path), w.dir) && DependsOnSeed(ws, {w.name}, n)
  {
    hide ForwardSlashes, WorkspaceDirForPath, IsWorkspaceDir, InDir, ForcesAll;
    var p :| Chain(ws, p) && p[0] == n && p[|p| - 1] in SeedSet(ws, changedPaths);
    var seed := p[|p| - 1];
    var path :| path in changedPaths && Seeds(ws, path, seed);
    var dir := WorkspaceDirForPath(ForwardSlashes(path)).value;
    var w := ByDir(ws)[dir];
    DirExactly(ForwardSlashes(path), dir);
    assert seed in {w.name} && DependsOnSeed(ws, {w.name}, n);
    assert path in changedPaths && w in ws && IsWorkspaceDir(w.dir) && InDir(ForwardSlashes(path), w.dir);
  }
}
