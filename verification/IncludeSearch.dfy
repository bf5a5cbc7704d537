/** Which file an include stands for, and under which name a scanned file counts as a dependency. */
module IncludeSearch {
  import opened Wrappers
  import opened IncludeScanner
  import opened IncludeReachability

  // ---- Paths ----

  predicate AllSlashes(s: string) {
    forall i :: 0 <= i < |s| ==> s[i] == '/'
  }

  lemma {:induction false} HeadOf(front: string, base: string)
    requires '/' !in base && (front != "" ==> front[|front| - 1] == '/')
    ensures Head(front + base) == front
    decreases |base|
  {
    if base == "" {
      assert front + base == front;
      if front == "" { assert Head("") == ""; }
    } else {
      assert (front + base)[..|front + base| - 1] == front + base[..|base| - 1];
      HeadOf(front, base[..|base| - 1]);
    }
  }

  lemma {:induction false} SlashesOff(dir: string, slashes: string)
    requires AllSlashes(slashes) && (dir != "" ==> dir[|dir| - 1] != '/')
    ensures WithoutSlashes(dir + slashes) == dir
    decreases |slashes|
  {
    if slashes == "" {
      assert dir + slashes == dir;
    } else {
      assert (dir + slashes)[..|dir + slashes| - 1] == dir + slashes[..|slashes| - 1];
      SlashesOff(dir, slashes[..|slashes| - 1]);
    }
  }

  /** A path is a directory, slashes and a base name; slashes with nothing before them are the directory. */
  lemma DirNameOf(dir: string, slashes: string, base: string)
    requires AllSlashes(slashes) && '/' !in base
    requires dir != "" ==> dir[|dir| - 1] != '/' && slashes != ""
    ensures DirName(dir + slashes + base) == if dir == "" then slashes else dir
  {
    HeadOf(dir + slashes, base);
    SlashesOff(dir, slashes);
    if dir == "" { assert dir + slashes == slashes; }
  }

  /** Absolute paths stay, and others get the directory and one slash before them. */
  lemma JoinOf(dir: string, path: string)
    ensures path != "" && path[0] == '/' ==> Join(dir, path) == path
    ensures path == "" || path[0] != '/' ==>
              && Join("", path) == path
              && Join(dir + "/", path) == dir + "/" + path
              && (dir != "" && dir[|dir| - 1] != '/' ==> Join(dir, path) == dir + "/" + path)
  {
    if path == "" || path[0] != '/' {
      assert "" + path == path;
    }
  }

  /** A file in the same directory. */
  lemma Sibling(dir: string, base: string, path: string)
    requires dir != "" && dir[|dir| - 1] != '/' && '/' !in base && (path != "" ==> path[0] != '/')
    ensures Join(DirName(dir + "/" + base), path) == dir + "/" + path
  {
    DirNameOf(dir, "/", base);
    JoinOf(dir, path);
  }

  // ---- Which file it is ----

  /** The n-th include path has the file, and neither a later one nor the including file's directory has. */
  predicate LastPath(t: Tree, o: Options, includer: string, path: string, n: nat) {
    && n < |o.includePaths| && Join(o.includePaths[n], path) in t.files
    && (forall m :: n < m < |o.includePaths| ==> Join(o.includePaths[m], path) !in t.files)
    && Join(DirName(includer), path) !in t.files
  }

  lemma {:induction false} LastHitIs(t: Tree, dirs: seq<string>, path: string, n: nat)
    requires n < |dirs| && Join(dirs[n], path) in t.files
    requires forall m :: n < m < |dirs| ==> Join(dirs[m], path) !in t.files
    ensures LastHit(t, dirs, path) == Some(Join(dirs[n], path))
  {
    if n < |dirs| - 1 {
      assert dirs[..|dirs| - 1][n] == dirs[n];
      LastHitIs(t, dirs[..|dirs| - 1], path, n);
    }
  }

  /** The directory of the including file comes first of all, and of the include paths the later before the earlier. */
  lemma ResolvedIs(t: Tree, o: Options, includer: string, path: string)
    ensures var own, r := Join(DirName(includer), path), Resolved(t, o, includer, path);
            && (own in t.files ==> r == Some(own))
            && (forall n: nat :: LastPath(t, o, includer, path, n) ==> r == Some(Join(o.includePaths[n], path)))
            && (r.None? <==> own !in t.files && forall dir :: dir in o.includePaths ==> Join(dir, path) !in t.files)
  {
    var dirs, last := SearchDirs(o, includer), |o.includePaths|;
    assert dirs[last] == DirName(includer);
    if Join(DirName(includer), path) in t.files {
      LastHitIs(t, dirs, path, last);
    }
    forall n: nat | LastPath(t, o, includer, path, n)
      ensures Resolved(t, o, includer, path) == Some(Join(o.includePaths[n], path))
    {
      assert dirs[n] == o.includePaths[n];
      LastHitIs(t, dirs, path, n);
    }
  }

  /** An include counts as a dependency exactly if the source directory is searched and has it. */
  lemma DependencyIff(t: Tree, o: Options, includer: string, path: string)
    ensures Dependency(t, o, includer, path).Some? <==>
            Join(o.srcdir, path) in t.files && (o.srcdir in o.includePaths || o.srcdir == DirName(includer))
    ensures Dependency(t, o, includer, path).Some? ==> Dependency(t, o, includer, path).value == path
  {
  }

  /** src/a.hpp and src/event/a.hpp: the one beside the including file. */
  lemma OwnDirectoryWins(t: Tree, o: Options)
    requires "src/event/a.hpp" in t.files && o.includePaths == ["src"]
    ensures Resolved(t, o, "src/event/x.cpp", "a.hpp") == Some("src/event/a.hpp")
  {
    Sibling("src/event", "x.cpp", "a.hpp");
    assert "src/event" + "/" + "x.cpp" == "src/event/x.cpp" && "src/event" + "/" + "a.hpp" == "src/event/a.hpp";
    ResolvedIs(t, o, "src/event/x.cpp", "a.hpp");
  }

  // ---- Where scanned files and dependencies come from ----

  /** The file was found through this include, and is a dependency if this include makes it one. */
  predicate FoundBy(t: Tree, o: Options, f: string, inc: string, x: Scanned) {
    && inc in IncludesOf(t, f) && Resolved(t, o, f, inc) == Some(x.file) && x.dep == Dependency(t, o, f, inc)
  }

  ghost predicate FoundFrom(t: Tree, o: Options, root: string, x: Scanned) {
    exists f, inc :: Reaches(t, o, root, f) && FoundBy(t, o, f, inc, x)
  }

  /** Each file scanned since the first `from` was found by an include of a file that can be reached. */
  ghost predicate AllFound(t: Tree, o: Options, root: string, from: nat, st: State) {
    forall k :: from <= k < |st.scanned| ==> FoundFrom(t, o, root, st.scanned[k])
  }

  lemma {:induction false} LoopFinds(t: Tree, o: Options, file: string, n: nat, st: State)
    requires n <= |IncludesOf(t, file)|
    ensures AllFound(t, o, file, |st.scanned|, ScanIncludes(t, o, file, n, st).1)
    decreases Unvisited(t, st.visited), 1 + |IncludesOf(t, file)| - n
  {
    if n < |IncludesOf(t, file)| {
      var one := ScanInclude(t, o, file, IncludesOf(t, file)[n], st).1;
      var end := ScanIncludes(t, o, file, n + 1, one).1;
      IncludeFinds(t, o, file, IncludesOf(t, file)[n], st);
      FewerUnvisited(t, st.visited, one.visited);
      ScannedGrowsOn(t, o, file, n, st);
      LoopFinds(t, o, file, n + 1, one);
      FoundTrans(t, o, file, |st.scanned|, one, end);
    }
  }

  lemma FoundTrans(t: Tree, o: Options, root: string, from: nat, b: State, c: State)
    requires b.scanned <= c.scanned && AllFound(t, o, root, from, b) && AllFound(t, o, root, |b.scanned|, c)
    ensures AllFound(t, o, root, from, c)
  {
    forall k | from <= k < |c.scanned|
      ensures FoundFrom(t, o, root, c.scanned[k])
    {
      if k < |b.scanned| { assert c.scanned[k] == b.scanned[k]; }
    }
  }

  lemma {:induction false} IncludeFinds(t: Tree, o: Options, file: string, here: string, st: State)
    requires here in IncludesOf(t, file)
    ensures AllFound(t, o, file, |st.scanned|, ScanInclude(t, o, file, here, st).1)
    decreases Unvisited(t, st.visited), 1
  {
    var target := Resolved(t, o, file, here);
    if target.Some? && target.value !in st.visited && target.value !in o.excludes {
      var begun := Begin(st, target.value, Dependency(t, o, file, here));
      FewerUnvisited(t, st.visited, begun.visited);
      LoopFinds(t, o, target.value, 0, begun);
      LoopExplores(t, o, target.value, 0, begun);
      FoundThrough(t, o, file, here, st, ScanIncludes(t, o, target.value, 0, begun).1);
    }
  }

  lemma FoundThrough(t: Tree, o: Options, file: string, here: string, st: State, end: State)
    requires here in IncludesOf(t, file) && Resolved(t, o, file, here).Some?
    requires Resolved(t, o, file, here).value !in o.excludes
    requires var x := Resolved(t, o, file, here).value;
             && st.scanned + [Scanned(x, Dependency(t, o, file, here))] <= end.scanned
             && AllFound(t, o, x, |st.scanned| + 1, end)
    ensures AllFound(t, o, file, |st.scanned|, end)
  {
    var x := Resolved(t, o, file, here).value;
    ReachesItself(t, o, file);
    assert end.scanned[|st.scanned|] == Scanned(x, Dependency(t, o, file, here));
    assert FoundBy(t, o, file, here, end.scanned[|st.scanned|]);
    forall k | |st.scanned| < k < |end.scanned|
      ensures FoundFrom(t, o, file, end.scanned[k])
    {
      var f, inc :| Reaches(t, o, x, f) && FoundBy(t, o, f, inc, end.scanned[k]);
      assert Edge(t, o, file, x);
      ReachesOverEdge(t, o, file, x, f);
    }
  }

  /**
   The root comes first with its own name, and every other file scanned was found by an include of a reachable file,
   and is a dependency exactly if that include makes it one.
   */
  lemma ScannedAsFound(t: Tree, o: Options, root: string, dep: Option<string>, reports: Reports)
    requires root in t.files
    ensures var st := Scan(t, o, root, dep, Fresh(reports)).1;
            st.scanned != [] && st.scanned[0] == Scanned(root, dep) && AllFound(t, o, root, 1, st)
  {
    var begun := Begin(Fresh(reports), root, dep);
    LoopFinds(t, o, root, 0, begun);
    RootIsScanned(t, o, root, dep, Fresh(reports));
    assert Scan(t, o, root, dep, Fresh(reports)).1.scanned[0] == Scanned(root, dep);
  }

  /** What an include leads to is scanned before the next include: after the file comes what its first one finds. */
  lemma DepthFirst(t: Tree, o: Options, file: string, dep: Option<string>, st: State)
    requires file in t.files && file !in st.visited && IncludesOf(t, file) != []
    requires Resolved(t, o, file, IncludesOf(t, file)[0]).Some?
    requires var x := Resolved(t, o, file, IncludesOf(t, file)[0]).value;
             x != file && x !in st.visited && x !in o.excludes
    ensures var inc := IncludesOf(t, file)[0];
            st.scanned + [Scanned(file, dep)]
            + [Scanned(Resolved(t, o, file, inc).value, Dependency(t, o, file, inc))]
            <= Scan(t, o, file, dep, st).1.scanned
  {
    var inc, begun := IncludesOf(t, file)[0], Begin(st, file, dep);
    RootIsScanned(t, o, Resolved(t, o, file, inc).value, Dependency(t, o, file, inc), begun);
    FewerUnvisited(t, st.visited, begun.visited);
    ScannedGrowsOn(t, o, file, 0, begun);
  }

  lemma ScannedGrowsOn(t: Tree, o: Options, file: string, n: nat, st: State)
    requires n < |IncludesOf(t, file)|
    ensures ScanInclude(t, o, file, IncludesOf(t, file)[n], st).1.scanned <= ScanIncludes(t, o, file, n, st).1.scanned
  {
    LoopExplores(t, o, file, n + 1, ScanInclude(t, o, file, IncludesOf(t, file)[n], st).1);
  }

  /** Dependencies are named under the variable for the source directory. */
  lemma DependencyName(o: Options, path: string)
    requires path != "" ==> path[0] != '/'
    ensures DepName(o, Some(path)) == ["$(" + o.srcvar + ")/" + path] && DepName(o, None) == []
  {
    JoinOf("$(" + o.srcvar + ")", path);
    assert "$(" + o.srcvar + ")" + "/" + path == "$(" + o.srcvar + ")/" + path;
  }
}
