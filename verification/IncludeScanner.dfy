/** The include scanner `scripts/gendeps.py`: a depth first search that shares its list of visited files. */
module IncludeScanner {
  import opened Wrappers
  import opened Strings

  // ---- Paths, as os.path has them on POSIX ----

  /** os.path.join of two */
  function Join(dir: string, path: string): string {
    if path != "" && path[0] == '/' then path
    else if dir == "" || dir[|dir| - 1] == '/' then dir + path
    else dir + "/" + path
  }

  /** path[: path.rfind('/') + 1] */
  function Head(path: string): (head: string)
    ensures |head| <= |path|
  {
    if path == "" || path[|path| - 1] == '/' then path else Head(path[..|path| - 1])
  }

  function WithoutSlashes(path: string): string {
    if path != "" && path[|path| - 1] == '/' then WithoutSlashes(path[..|path| - 1]) else path
  }

  /** os.path.dirname */
  function DirName(path: string): string {
    if WithoutSlashes(Head(path)) == "" then Head(path) else WithoutSlashes(Head(path))
  }

  // ---- The source tree and the options ----

  /** The files there are and the quoted includes of each, in order. */
  datatype Tree = Tree(files: set<string>, includes: map<string, seq<string>>)

  datatype Options = Options(srcvar: string, srcdir: string, includePaths: seq<string>, excludes: set<string>)

  function IncludesOf(t: Tree, file: string): seq<string> {
    if file in t.includes then t.includes[file] else []
  }

  function SearchDirs(o: Options, includer: string): seq<string> {
    o.includePaths + [DirName(includer)]
  }

  /** The last of the directories in which the file is found wins. */
  function LastHit(t: Tree, dirs: seq<string>, path: string): (hit: Option<string>)
    ensures hit.Some? ==> hit.value in t.files
    ensures hit.None? <==> forall dir :: dir in dirs ==> Join(dir, path) !in t.files
  {
    if dirs == [] then None
    else if Join(dirs[|dirs| - 1], path) in t.files then Some(Join(dirs[|dirs| - 1], path))
    else LastHit(t, dirs[..|dirs| - 1], path)
  }

  /** The file an include stands for, if it can be located. */
  function Resolved(t: Tree, o: Options, includer: string, path: string): Option<string> {
    LastHit(t, SearchDirs(o, includer), path)
  }

  /** Whether one of the directories is the source directory, and the path is found there. */
  predicate InSource(t: Tree, dirs: seq<string>, srcdir: string, path: string) {
    srcdir in dirs && Join(srcdir, path) in t.files
  }

  /** The included path is a dependency if the source directory has it, even where another directory wins. */
  function Dependency(t: Tree, o: Options, includer: string, path: string): Option<string> {
    if InSource(t, SearchDirs(o, includer), o.srcdir, path) then Some(path) else None
  }

  lemma OneMoreDir(t: Tree, dirs: seq<string>, n: nat, srcdir: string, path: string, candidate: string)
    requires n < |dirs| && candidate == Join(dirs[n], path)
    ensures LastHit(t, dirs[..n + 1], path)
         == if candidate in t.files then Some(candidate) else LastHit(t, dirs[..n], path)
    ensures InSource(t, dirs[..n + 1], srcdir, path) <==>
            InSource(t, dirs[..n], srcdir, path) || (candidate in t.files && dirs[n] == srcdir)
  {
    assert dirs[..n + 1][..n] == dirs[..n];
    assert dirs[..n + 1] == dirs[..n] + [dirs[n]];
  }

  method FindFile(t: Tree, o: Options, path: string, includer: string)
      returns (incFile: Option<string>, incDep: Option<string>)
    ensures incFile == Resolved(t, o, includer, path) && incDep == Dependency(t, o, includer, path)
  {
    var dirs := SearchDirs(o, includer);
    incFile, incDep := SearchIn(t, dirs, o.srcdir, path);
  }

  /** The loop of find_file. */
  method SearchIn(t: Tree, dirs: seq<string>, srcdir: string, path: string)
      returns (incFile: Option<string>, incDep: Option<string>)
    ensures incFile == LastHit(t, dirs, path) && incDep == if InSource(t, dirs, srcdir, path) then Some(path) else None
  {
    incFile, incDep := None, None;
    var n := 0;
    while n < |dirs|
      invariant 0 <= n <= |dirs|
      invariant incFile == LastHit(t, dirs[..n], path)
      invariant incDep == if InSource(t, dirs[..n], srcdir, path) then Some(path) else None
    {
      var candidate := Join(dirs[n], path);
      OneMoreDir(t, dirs, n, srcdir, path, candidate);
      if candidate in t.files {
        incFile := Some(candidate);
        if dirs[n] == srcdir {
          incDep := Some(path);
        }
      }
      n := n + 1;
    }
    assert dirs[..n] == dirs;
  }

  // ---- What a scan does ----

  datatype Scanned = Scanned(file: string, dep: Option<string>)

  datatype Reports = Reports(excluded: seq<string>, missed: seq<(string, string)>)

  /** `scanned` lists the files whose includes were read, in order; `visited` also has excluded ones. */
  datatype State = State(visited: seq<string>, scanned: seq<Scanned>, reports: Reports)

  /** How many files are yet to be visited. */
  function Unvisited(t: Tree, visited: seq<string>): nat {
    |t.files - AsSet(visited)|
  }

  lemma FewerUnvisited(t: Tree, visited: seq<string>, more: seq<string>)
    requires visited <= more
    ensures Unvisited(t, more) <= Unvisited(t, visited)
    ensures (exists file :: file in more && file !in visited && file in t.files)
            ==> Unvisited(t, more) < Unvisited(t, visited)
  {
    var a, b := t.files - AsSet(more), t.files - AsSet(visited);
    assert forall n :: 0 <= n < |visited| ==> visited[n] == more[n];
    assert a <= b && b == a + (b - a);
    if file :| file in more && file !in visited && file in t.files {
      assert file in b - a;
    }
  }

  function ReportMissed(r: Reports, path: string, file: string): Reports {
    if (path, file) in r.missed then r else r.(missed := r.missed + [(path, file)])
  }

  function ReportExcluded(r: Reports, file: string): Reports {
    if file in r.excluded then r else r.(excluded := r.excluded + [file])
  }

  /** The name of a dependency in a recipe, if it has one. */
  function DepName(o: Options, dep: Option<string>): seq<string> {
    if dep.Some? then [Join("$(" + o.srcvar + ")", dep.value)] else []
  }

  function Begin(st: State, file: string, dep: Option<string>): State {
    st.(visited := st.visited + [file], scanned := st.scanned + [Scanned(file, dep)])
  }

  /** scan_deps: the dependencies and the state after it. */
  function Scan(t: Tree, o: Options, file: string, dep: Option<string>, st: State): (r: (seq<string>, State))
    requires file in t.files && file !in st.visited
    ensures st.visited + [file] <= r.1.visited
    decreases Unvisited(t, st.visited), 0
  {
    FewerUnvisited(t, st.visited, st.visited + [file]);
    var rest := ScanIncludes(t, o, file, 0, Begin(st, file, dep));
    (DepName(o, dep) + rest.0, rest.1)
  }

  /** The loop of scan_deps over the includes of a file from the n-th on. */
  function ScanIncludes(t: Tree, o: Options, file: string, n: nat, st: State): (r: (seq<string>, State))
    requires n <= |IncludesOf(t, file)|
    ensures st.visited <= r.1.visited
    decreases Unvisited(t, st.visited), 1 + |IncludesOf(t, file)| - n
  {
    if n == |IncludesOf(t, file)| then ([], st)
    else
      var one := ScanInclude(t, o, file, IncludesOf(t, file)[n], st);
      FewerUnvisited(t, st.visited, one.1.visited);
      var rest := ScanIncludes(t, o, file, n + 1, one.1);
      (one.0 + rest.0, rest.1)
  }

  /** The body of that loop. */
  function ScanInclude(t: Tree, o: Options, file: string, path: string, st: State): (r: (seq<string>, State))
    ensures st.visited <= r.1.visited
    decreases Unvisited(t, st.visited), 1
  {
    var target := Resolved(t, o, file, path);
    if target.None? then ([], st.(reports := ReportMissed(st.reports, path, file)))
    else if target.value in st.visited then ([], st)
    else if target.value in o.excludes then
      ([], st.(visited := st.visited + [target.value], reports := ReportExcluded(st.reports, target.value)))
    else Scan(t, o, target.value, Dependency(t, o, file, path), st)
  }

  // ---- The shared lists ----

  /** The list `visited`, shared by all calls for one module; what was scanned is kept for the proof. */
  class Visited {
    var files: seq<string>
    ghost var scanned: seq<Scanned>

    constructor ()
      ensures files == [] && scanned == []
    {
      files, scanned := [], [];
    }
  }

  /** The dictionary `reports`, shared by all modules. */
  class ReportLists {
    var excluded: seq<string>
    var missed: seq<(string, string)>

    constructor ()
      ensures View() == Reports([], [])
    {
      excluded, missed := [], [];
    }

    ghost function View(): Reports
      reads this
    {
      Reports(excluded, missed)
    }
  }

  ghost function StateOf(v: Visited, r: ReportLists): State
    reads v, r
  {
    State(v.files, v.scanned, r.View())
  }

  method ScanDeps(t: Tree, o: Options, scanFile: string, depFile: Option<string>, visited: Visited,
      reports: ReportLists)
      returns (deps: seq<string>)
    requires scanFile in t.files && scanFile !in visited.files
    modifies visited, reports
    ensures (deps, StateOf(visited, reports)) == Scan(t, o, scanFile, depFile, old(StateOf(visited, reports)))
    decreases Unvisited(t, visited.files), 0
  {
    FewerUnvisited(t, visited.files, visited.files + [scanFile]);
    visited.files := visited.files + [scanFile];
    visited.scanned := visited.scanned + [Scanned(scanFile, depFile)];
    var rest := FollowIncludes(t, o, scanFile, visited, reports);
    deps := DepName(o, depFile) + rest;
  }

  /** The loop of scan_deps. */
  method FollowIncludes(t: Tree, o: Options, scanFile: string, visited: Visited, reports: ReportLists)
      returns (deps: seq<string>)
    modifies visited, reports
    ensures (deps, StateOf(visited, reports)) == ScanIncludes(t, o, scanFile, 0, old(StateOf(visited, reports)))
    decreases Unvisited(t, visited.files), 2
  {
    deps := [];
    ghost var begun := StateOf(visited, reports);
    var includes := IncludesOf(t, scanFile);
    var n := 0;
    while n < |includes|
      invariant 0 <= n <= |includes| && includes == IncludesOf(t, scanFile)
      invariant begun.visited <= visited.files
      invariant InLoop(t, o, scanFile, begun, n, deps, StateOf(visited, reports))
    {
      NoMoreUnvisited(t, begun.visited, visited.files);
      LoopAdvances(t, o, scanFile, begun, n, deps, StateOf(visited, reports));
      var more := FollowInclude(t, o, scanFile, includes[n], visited, reports);
      deps := deps + more;
      n := n + 1;
    }
    assert deps + [] == deps;
  }

  /** The loop has taken `deps` and reached `st`, and goes on with the n-th include. */
  ghost predicate InLoop(t: Tree, o: Options, file: string, begun: State, n: nat, deps: seq<string>, st: State) {
    && n <= |IncludesOf(t, file)|
    && begun.visited <= st.visited
    && ScanIncludes(t, o, file, 0, begun).0 == deps + ScanIncludes(t, o, file, n, st).0
    && ScanIncludes(t, o, file, 0, begun).1 == ScanIncludes(t, o, file, n, st).1
  }

  lemma LoopAdvances(t: Tree, o: Options, file: string, begun: State, n: nat, deps: seq<string>, st: State)
    requires n < |IncludesOf(t, file)| && InLoop(t, o, file, begun, n, deps, st)
    ensures var one := ScanInclude(t, o, file, IncludesOf(t, file)[n], st);
            InLoop(t, o, file, begun, n + 1, deps + one.0, one.1)
  {
    var one := ScanInclude(t, o, file, IncludesOf(t, file)[n], st);
    Regroup(deps, one.0, ScanIncludes(t, o, file, n + 1, one.1).0);
  }

  lemma NoMoreUnvisited(t: Tree, visited: seq<string>, more: seq<string>)
    requires visited <= more
    ensures Unvisited(t, more) <= Unvisited(t, visited)
  {
    FewerUnvisited(t, visited, more);
  }

  /** The body of the loop of scan_deps. */
  method FollowInclude(t: Tree, o: Options, scanFile: string, inc: string, visited: Visited, reports: ReportLists)
      returns (deps: seq<string>)
    modifies visited, reports
    ensures (deps, StateOf(visited, reports)) == ScanInclude(t, o, scanFile, inc, old(StateOf(visited, reports)))
    decreases Unvisited(t, visited.files), 1
  {
    deps := [];
    var incFile, incDep := FindFile(t, o, inc, scanFile);
    if incFile.None? {
      if (inc, scanFile) !in reports.missed {
        reports.missed := reports.missed + [(inc, scanFile)];
      }
    } else if incFile.value !in visited.files {
      if incFile.value in o.excludes {
        if incFile.value !in reports.excluded {
          reports.excluded := reports.excluded + [incFile.value];
        }
        visited.files := visited.files + [incFile.value];
      } else {
        deps := ScanDeps(t, o, incFile.value, incDep, visited, reports);
      }
    }
  }

  lemma Regroup(a: seq<string>, b: seq<string>, c: seq<string>)
    ensures a + (b + c) == a + b + c
  {
  }
}
