/** The reports that all modules share, and the recipes. */
module IncludeReports {
  import opened Wrappers
  import opened IncludeScanner
  import opened IncludeReachability
  import opened IncludeSearch

  // ---- Missed includes ----

  /** f has the include and it cannot be located. */
  predicate Misses(t: Tree, o: Options, inc: string, f: string) {
    inc in IncludesOf(t, f) && Resolved(t, o, f, inc).None?
  }

  /** f was scanned after the first `from` files. */
  predicate ScannedSince(st: State, from: nat, f: string) {
    exists k :: from <= k < |st.scanned| && st.scanned[k].file == f
  }

  lemma SinceTrans(a: State, b: State, c: State, f: string)
    requires a.scanned <= b.scanned <= c.scanned
    ensures ScannedSince(c, |a.scanned|, f) <==> ScannedSince(b, |a.scanned|, f) || ScannedSince(c, |b.scanned|, f)
  {
    assert forall k :: 0 <= k < |b.scanned| ==> c.scanned[k] == b.scanned[k];
    if ScannedSince(b, |a.scanned|, f) {
      var k :| |a.scanned| <= k < |b.scanned| && b.scanned[k].file == f;
      assert c.scanned[k].file == f;
    }
  }

  /** A scan reports exactly the includes it could not locate in the files it scanned. */
  lemma {:induction false} ScanMisses(t: Tree, o: Options, file: string, dep: Option<string>, st: State, inc: string,
      f: string)
    requires file in t.files && file !in st.visited
    ensures var end := Scan(t, o, file, dep, st).1;
            (inc, f) in end.reports.missed <==>
            (inc, f) in st.reports.missed || (Misses(t, o, inc, f) && ScannedSince(end, |st.scanned|, f))
    decreases Unvisited(t, st.visited), 0
  {
    FewerUnvisited(t, st.visited, st.visited + [file]);
    var begun := Begin(st, file, dep);
    var end := ScanIncludes(t, o, file, 0, begun).1;
    LoopMisses(t, o, file, 0, begun, inc, f);
    LoopExplores(t, o, file, 0, begun);
    SinceTrans(st, begun, end, f);
    assert begun.scanned[|st.scanned|] == Scanned(file, dep);
    assert ScannedSince(begun, |st.scanned|, f) <==> f == file;
    assert IncludesOf(t, file)[0..] == IncludesOf(t, file);
  }

  lemma ScannedGrows(t: Tree, o: Options, file: string, n: nat, st: State)
    requires n < |IncludesOf(t, file)|
    ensures var one := ScanInclude(t, o, file, IncludesOf(t, file)[n], st).1;
            st.scanned <= one.scanned <= ScanIncludes(t, o, file, n + 1, one).1.scanned
  {
    IncludeExplores(t, o, file, IncludesOf(t, file)[n], st);
    LoopExplores(t, o, file, n + 1, ScanInclude(t, o, file, IncludesOf(t, file)[n], st).1);
  }

  lemma InRest(s: seq<string>, n: nat, x: string)
    requires n < |s|
    ensures x in s[n..] <==> x == s[n] || x in s[n + 1..]
  {
    assert s[n..] == [s[n]] + s[n + 1..];
  }

  lemma {:induction false} LoopMisses(t: Tree, o: Options, file: string, n: nat, st: State, inc: string, f: string)
    requires n <= |IncludesOf(t, file)|
    ensures var end := ScanIncludes(t, o, file, n, st).1;
            (inc, f) in end.reports.missed <==>
            || (inc, f) in st.reports.missed
            || (f == file && inc in IncludesOf(t, file)[n..] && Misses(t, o, inc, f))
            || (Misses(t, o, inc, f) && ScannedSince(end, |st.scanned|, f))
    decreases Unvisited(t, st.visited), 1 + |IncludesOf(t, file)| - n
  {
    if n < |IncludesOf(t, file)| {
      var here := IncludesOf(t, file)[n];
      var one := ScanInclude(t, o, file, here, st).1;
      var end := ScanIncludes(t, o, file, n + 1, one).1;
      FewerUnvisited(t, st.visited, one.visited);
      IncludeMisses(t, o, file, here, st, inc, f);
      LoopMisses(t, o, file, n + 1, one, inc, f);
      ScannedGrows(t, o, file, n, st);
      SinceTrans(st, one, end, f);
      InRest(IncludesOf(t, file), n, inc);
    }
  }

  lemma {:induction false} IncludeMisses(t: Tree, o: Options, file: string, here: string, st: State, inc: string,
      f: string)
    requires here in IncludesOf(t, file)
    ensures var end := ScanInclude(t, o, file, here, st).1;
            (inc, f) in end.reports.missed <==>
            || (inc, f) in st.reports.missed
            || (f == file && inc == here && Misses(t, o, inc, f))
            || (Misses(t, o, inc, f) && ScannedSince(end, |st.scanned|, f))
    decreases Unvisited(t, st.visited), 1
  {
    var target := Resolved(t, o, file, here);
    if target.Some? && target.value !in st.visited && target.value !in o.excludes {
      ScanMisses(t, o, target.value, Dependency(t, o, file, here), st, inc, f);
    }
  }

  // ---- Excluded files ----

  /** x was visited since a but is excluded. */
  predicate Skipped(o: Options, a: State, b: State, x: string) {
    x in b.visited && x !in a.visited && x in o.excludes
  }

  lemma {:induction false} LoopSkips(t: Tree, o: Options, file: string, n: nat, st: State, x: string)
    requires n <= |IncludesOf(t, file)|
    ensures var end := ScanIncludes(t, o, file, n, st).1;
            x in end.reports.excluded <==> x in st.reports.excluded || Skipped(o, st, end, x)
    decreases Unvisited(t, st.visited), 1 + |IncludesOf(t, file)| - n
  {
    if n < |IncludesOf(t, file)| {
      var here := IncludesOf(t, file)[n];
      var one := ScanInclude(t, o, file, here, st).1;
      var end := ScanIncludes(t, o, file, n + 1, one).1;
      FewerUnvisited(t, st.visited, one.visited);
      IncludeSkips(t, o, file, here, st, x);
      LoopSkips(t, o, file, n + 1, one, x);
      PrefixMembers(st.visited, one.visited);
      PrefixMembers(one.visited, end.visited);
    }
  }

  lemma {:induction false} IncludeSkips(t: Tree, o: Options, file: string, here: string, st: State, x: string)
    ensures var end := ScanInclude(t, o, file, here, st).1;
            x in end.reports.excluded <==> x in st.reports.excluded || Skipped(o, st, end, x)
    decreases Unvisited(t, st.visited), 1
  {
    var target := Resolved(t, o, file, here);
    if target.Some? && target.value !in st.visited && target.value !in o.excludes {
      var begun := Begin(st, target.value, Dependency(t, o, file, here));
      FewerUnvisited(t, st.visited, begun.visited);
      LoopSkips(t, o, target.value, 0, begun, x);
    }
  }

  /** Whatever is visited was included by a file that can be reached. */
  ghost predicate Included(t: Tree, o: Options, root: string, x: string) {
    exists f :: Reaches(t, o, root, f) && Edge(t, o, f, x)
  }

  lemma {:induction false} LoopVisits(t: Tree, o: Options, file: string, n: nat, st: State, x: string)
    requires n <= |IncludesOf(t, file)| && x !in st.visited && x in ScanIncludes(t, o, file, n, st).1.visited
    ensures Included(t, o, file, x)
    decreases Unvisited(t, st.visited), 1 + |IncludesOf(t, file)| - n
  {
    var here := IncludesOf(t, file)[n];
    var one := ScanInclude(t, o, file, here, st).1;
    FewerUnvisited(t, st.visited, one.visited);
    if x in one.visited {
      IncludeVisits(t, o, file, here, st, x);
    } else {
      LoopVisits(t, o, file, n + 1, one, x);
    }
  }

  lemma {:induction false} IncludeVisits(t: Tree, o: Options, file: string, here: string, st: State, x: string)
    requires here in IncludesOf(t, file) && x !in st.visited && x in ScanInclude(t, o, file, here, st).1.visited
    ensures Included(t, o, file, x)
    decreases Unvisited(t, st.visited), 1
  {
    var target := Resolved(t, o, file, here).value;
    assert Edge(t, o, file, target);
    ReachesItself(t, o, file);
    if x != target {
      var begun := Begin(st, target, Dependency(t, o, file, here));
      FewerUnvisited(t, st.visited, begun.visited);
      LoopVisits(t, o, target, 0, begun, x);
      var f :| Reaches(t, o, target, f) && Edge(t, o, f, x);
      ReachesOverEdge(t, o, file, target, f);
    }
  }

  /**
   * The reports after a module: of the includes in reachable files exactly those that cannot be located, and of
   * the excluded files exactly those that a reachable file includes. The root may be excluded without being reported.
   */
  lemma ReportsExactly(t: Tree, o: Options, root: string, dep: Option<string>, reports: Reports)
    requires root in t.files
    ensures var end := Scan(t, o, root, dep, Fresh(reports)).1.reports;
            && (forall inc, f :: (inc, f) in end.missed <==>
                  (inc, f) in reports.missed || (Reaches(t, o, root, f) && Misses(t, o, inc, f)))
            && (forall x :: x in end.excluded <==>
                  x in reports.excluded || (x in o.excludes && x != root && Included(t, o, root, x)))
  {
    var st := Scan(t, o, root, dep, Fresh(reports)).1;
    ScansExactlyTheReachable(t, o, root, dep, reports);
    forall inc, f ensures (inc, f) in st.reports.missed <==>
                          (inc, f) in reports.missed || (Reaches(t, o, root, f) && Misses(t, o, inc, f)) {
      ScanMisses(t, o, root, dep, Fresh(reports), inc, f);
      assert ScannedSince(st, 0, f) <==> IsScanned(st, f);
    }
    forall x ensures x in st.reports.excluded <==>
                     x in reports.excluded || (x in o.excludes && x != root && Included(t, o, root, x)) {
      ExcludedExactly(t, o, root, dep, reports, x);
    }
  }

  lemma ExcludedExactly(t: Tree, o: Options, root: string, dep: Option<string>, reports: Reports, x: string)
    requires root in t.files
    ensures x in Scan(t, o, root, dep, Fresh(reports)).1.reports.excluded <==>
            x in reports.excluded || (x in o.excludes && x != root && Included(t, o, root, x))
  {
    var begun := Begin(Fresh(reports), root, dep);
    var st := Scan(t, o, root, dep, Fresh(reports)).1;
    LoopSkips(t, o, root, 0, begun, x);
    if x in st.visited && x != root {
      LoopVisits(t, o, root, 0, begun, x);
    }
    if Included(t, o, root, x) {
      ScansExactlyTheReachable(t, o, root, dep, reports);
      ScanExplores(t, o, root, dep, Fresh(reports));
      var f :| Reaches(t, o, root, f) && Edge(t, o, f, x);
      var k :| 0 <= k < |st.scanned| && st.scanned[k].file == f;
      assert Closed(t, o, st.scanned[k].file, st.visited);
    }
  }

  // ---- Recipes ----

  predicate SameScan(a: State, b: State) {
    a.visited == b.visited && a.scanned == b.scanned
  }

  /** What was reported before has no effect on what is scanned. */
  lemma {:induction false} ScanIgnoresReports(t: Tree, o: Options, file: string, dep: Option<string>, a: State,
      b: State)
    requires file in t.files && file !in a.visited && SameScan(a, b)
    ensures Scan(t, o, file, dep, a).0 == Scan(t, o, file, dep, b).0
            && SameScan(Scan(t, o, file, dep, a).1, Scan(t, o, file, dep, b).1)
    decreases Unvisited(t, a.visited), 0
  {
    FewerUnvisited(t, a.visited, a.visited + [file]);
    LoopIgnoresReports(t, o, file, 0, Begin(a, file, dep), Begin(b, file, dep));
  }

  lemma {:induction false} LoopIgnoresReports(t: Tree, o: Options, file: string, n: nat, a: State, b: State)
    requires n <= |IncludesOf(t, file)| && SameScan(a, b)
    ensures ScanIncludes(t, o, file, n, a).0 == ScanIncludes(t, o, file, n, b).0
    ensures SameScan(ScanIncludes(t, o, file, n, a).1, ScanIncludes(t, o, file, n, b).1)
    decreases Unvisited(t, a.visited), 1 + |IncludesOf(t, file)| - n
  {
    if n < |IncludesOf(t, file)| {
      var inc := IncludesOf(t, file)[n];
      var one := ScanInclude(t, o, file, inc, a).1;
      FewerUnvisited(t, a.visited, one.visited);
      var target := Resolved(t, o, file, inc);
      if target.Some? && target.value !in a.visited && target.value !in o.excludes {
        ScanIgnoresReports(t, o, target.value, Dependency(t, o, file, inc), a, b);
      }
      LoopIgnoresReports(t, o, file, n + 1, one, ScanInclude(t, o, file, inc, b).1);
    }
  }

  /** The dependencies of a module scanned on its own. */
  function DepsAlone(t: Tree, o: Options, mod: string): seq<string>
    requires Join(o.srcdir, mod) in t.files
  {
    Scan(t, o, Join(o.srcdir, mod), Some(mod), Fresh(Reports([], []))).0
  }

  /** The module itself is its first dependency, under the variable for the source directory. */
  lemma ModuleComesFirst(t: Tree, o: Options, mod: string)
    requires Join(o.srcdir, mod) in t.files && (mod != "" ==> mod[0] != '/')
    ensures DepsAlone(t, o, mod) != [] && DepsAlone(t, o, mod)[0] == "$(" + o.srcvar + ")/" + mod
  {
    DependencyName(o, mod);
  }

  /** generate_recipes: although the modules share the reports, each gets the dependencies it would get on its own. */
  method GenerateRecipes(t: Tree, o: Options, modules: seq<string>) returns (recipes: seq<(string, seq<string>)>)
    requires forall n :: 0 <= n < |modules| ==> Join(o.srcdir, modules[n]) in t.files
    ensures |recipes| == |modules|
    ensures forall n :: 0 <= n < |modules| ==> recipes[n] == (modules[n], DepsAlone(t, o, modules[n]))
  {
    recipes := [];
    var reports := new ReportLists();
    var n := 0;
    while n < |modules|
      invariant 0 <= n <= |modules| && |recipes| == n
      invariant forall k :: 0 <= k < n ==> recipes[k] == (modules[k], DepsAlone(t, o, modules[k]))
    {
      var visited := new Visited();
      ghost var before := StateOf(visited, reports);
      var deps := ScanDeps(t, o, Join(o.srcdir, modules[n]), Some(modules[n]), visited, reports);
      ScanIgnoresReports(t, o, Join(o.srcdir, modules[n]), Some(modules[n]), before, Fresh(Reports([], [])));
      recipes := recipes + [(modules[n], deps)];
      n := n + 1;
    }
  }
}
